/** The shared tables behind the stream translator: one state per session, plus the
    tail of a JSON payload cut across events (backend/internal/translator/usage.go
    and the entry part of response.go). Each call is one atomic step. */
module Sessions {
  import opened Basics
  import opened Strings
  import opened Messages
  import opened StreamTranslator

  /** `json.Unmarshal` into a chunk: decoded, a proper prefix of a value, or malformed. */
  datatype Decoded = Parsed(chunk: Chunk) | Truncated | Malformed

  /** The two functions that stay abstract. */
  datatype Codec = Codec(parse: string -> Decoded, sanitize: Sanitizer)

  const MAX_PENDING_JSON := 1_048_576

  const PRUNE_THRESHOLD := 50

  /** Ten minutes, in nanoseconds. The zero time is 0. */
  const PRUNE_AGE := 600_000_000_000

  datatype Registry = Registry(states: map<string, State>, pending: map<string, string>)

  const EMPTY := Registry(map[], map[])

  datatype Incoming = Blank | Done | Data(payload: string)

  function Receive(raw: string): Incoming {
    var trimmed := TrimSpace(raw);
    if trimmed == "" then Blank
    else if trimmed == "[DONE]" then Done
    else if HasPrefix(trimmed, "data:") then
      var data := TrimSpace(trimmed[5..]);
      if data == "[DONE]" then Done else Data(data)
    else Data(trimmed)
  }

  datatype Reply =
    | Events(events: seq<Event>)
    | DoneFrame
    | Failed
    | UsageOf(usage: Option<OpenAIUsage>)
    | Cleared

  function Stale(s: State, now: int): bool {
    s.createdAt == 0 || now - s.createdAt > PRUNE_AGE
  }

  function Prune(states: map<string, State>, now: int): map<string, State> {
    if |states| < PRUNE_THRESHOLD then states else map k | k in states && !Stale(states[k], now) :: states[k]
  }

  function StateKey(key: string, c: Chunk): string {
    if key != "" then key else if c.id != "" then c.id else "default-session"
  }

  function Find(states: map<string, State>, key: string): Option<State> {
    if key in states then Some(states[key]) else None
  }

  function Buffered(r: Registry, key: string): string {
    if key != "" && key in r.pending then r.pending[key] else ""
  }

  /** A decoded chunk, for the session `key`. */
  function OnChunk(r: Registry, key: string, c: Chunk, now: int, newId: string, order: seq<int>, codec: Codec): (Registry, Reply) {
    var states := Prune(r.states, now);
    var out := Advance(Find(states, key), Tick(c, now, newId, order), codec.sanitize);
    (r.(states := if out.state.Some? then states[key := out.state.value] else states), Events(out.events))
  }

  /** The tool map order a chunk may meet: every tool once if the chunk finishes the message. */
  ghost predicate ChunkVisits(r: Registry, key: string, c: Chunk, now: int, newId: string, order: seq<int>) {
    var states := Prune(r.states, now);
    if key !in states && c.choices == [] then order == []
    else Visits(Find(states, key).GetOr(NewState(now, c, newId)), c, order)
  }

  /** The chunk a call completes, if it completes one. */
  function Completes(r: Registry, key: string, raw: string, codec: Codec): Option<Chunk> {
    match Receive(raw)
    case Data(payload) =>
      (match codec.parse(Buffered(r, key) + payload)
       case Parsed(c) => Some(c)
       case _ => None)
    case _ => None
  }

  ghost predicate TranslateVisits(r: Registry, key: string, raw: string, now: int, newId: string, order: seq<int>, codec: Codec) {
    match Completes(r, key, raw, codec)
    case Some(c) => ChunkVisits(r, StateKey(key, c), c, now, newId, order)
    case None => order == []
  }

  /** `TranslateOpenAIToClaudeStreamSession`. */
  function OnTranslate(r: Registry, key: string, raw: string, now: int, newId: string, order: seq<int>, codec: Codec): (Registry, Reply) {
    match Receive(raw)
    case Blank => (r, Events([]))
    case Done => (r, DoneFrame)
    case Data(payload) =>
      var full := Buffered(r, key) + payload;
      var r1 := if key == "" then r else r.(pending := r.pending - {key});
      match codec.parse(full)
      case Parsed(c) => OnChunk(r1, StateKey(key, c), c, now, newId, order, codec)
      case Truncated =>
        if key != "" && |full| < MAX_PENDING_JSON then (r1.(pending := r1.pending[key := full]), Events([])) else (r1, Failed)
      case Malformed => (r1, Failed)
  }

  /** `GetStreamUsage`. */
  function OnGetUsage(r: Registry, key: string, now: int): (Registry, Reply) {
    var states := Prune(r.states, now);
    (Registry(states - {key}, r.pending - {key}), UsageOf(if key in states then states[key].usage else None))
  }

  /** `ClearStreamState`. */
  function OnClear(r: Registry, key: string, now: int): (Registry, Reply) {
    (Registry(Prune(r.states, now) - {key}, r.pending - {key}), Cleared)
  }

  ghost function Snapshot(m: map<string, StreamState>): (states: map<string, State>)
    reads m.Values
    ensures states.Keys == m.Keys
  {
    map k | k in m :: m[k].View()
  }

  lemma {:induction false} SnapshotWithout(m: map<string, StreamState>, key: string)
    ensures Snapshot(m - {key}) == Snapshot(m) - {key}
  {
    hide StreamState.View;
  }

  lemma {:induction false} SnapshotAt(m: map<string, StreamState>, key: string)
    ensures key in m ==> Snapshot(m)[key] == m[key].View()
  {
  }

  lemma {:induction false} SnapshotIs(m: map<string, StreamState>, views: map<string, State>)
    requires m.Keys == views.Keys && forall k :: k in m ==> m[k].View() == views[k]
    ensures Snapshot(m) == views
  {
  }

  lemma {:induction false} SnapshotWith(m: map<string, StreamState>, key: string, s: StreamState)
    ensures Snapshot(m[key := s]) == Snapshot(m)[key := s.View()]
  {
    hide StreamState.View;
  }

  lemma {:induction false} SnapshotPruned(before: map<string, StreamState>, after: map<string, StreamState>, now: int)
    requires forall k :: k in after <==> k in before && !Stale(before[k].View(), now)
    requires forall k :: k in after ==> after[k] == before[k]
    requires |before| >= PRUNE_THRESHOLD
    ensures Snapshot(after) == Prune(Snapshot(before), now)
  {
    hide StreamState.View, Stale;
    assert |Snapshot(before).Keys| == |before.Keys|;
  }

  lemma {:induction false} SnapshotSmall(m: map<string, StreamState>, now: int)
    requires |m| < PRUNE_THRESHOLD
    ensures Snapshot(m) == Prune(Snapshot(m), now)
  {
    hide StreamState.View, Stale;
    assert |Snapshot(m).Keys| == |m.Keys|;
  }

  /** A chunk does nothing without a session and a choice; otherwise it is one step of its session. */
  lemma {:induction false} ChunkSteps(r: Registry, key: string, c: Chunk, now: int, newId: string, codec: Codec)
    ensures var states := Prune(r.states, now);
            forall order :: OnChunk(r, key, c, now, newId, order, codec) ==
              if key !in states && c.choices == [] then (r.(states := states), Events([])) else
              var s := if key in states then states[key] else NewState(now, c, newId);
              var out := Step(s, c, order, codec.sanitize);
              (r.(states := states[key := out.state]), Events(out.events))
  {
    hide Prune, Step, NewState;
  }

  lemma {:induction false} VisitsIgnorePending(r: Registry, r1: Registry, key: string, c: Chunk, now: int, newId: string)
    requires r.states == r1.states
    ensures forall order :: ChunkVisits(r, key, c, now, newId, order) <==> ChunkVisits(r1, key, c, now, newId, order)
  {
  }

  class StreamRegistry {
    var states: map<string, StreamState>
    var pendingJSON: map<string, string>
    const codec: Codec

    /** No two sessions share a state record. */
    ghost predicate Valid()
      reads this
    {
      forall k, k' :: k in states && k' in states && k != k' ==> states[k] != states[k']
    }

    ghost function View(): Registry
      reads this, states.Values
    {
      Registry(Snapshot(states), pendingJSON)
    }

    constructor (codec: Codec)
      ensures Valid() && View() == EMPTY && this.codec == codec
    {
      states, pendingJSON := map[], map[];
      this.codec := codec;
    }

    method PruneStaleStates(now: int)
      requires Valid()
      modifies this`states
      ensures Valid() && states.Values <= old(states.Values)
      ensures View() == old(View()).(states := Prune(old(View()).states, now))
    {
      hide Snapshot, Prune;
      if |states| < PRUNE_THRESHOLD {
        SnapshotSmall(states, now);
        return;
      }
      ghost var before := states;
      var remaining := states.Keys;
      while remaining != {}
        invariant remaining <= before.Keys
        invariant forall k :: k in states <==> k in before && (k in remaining || !Stale(before[k].View(), now))
        invariant forall k :: k in states ==> states[k] == before[k]
        decreases remaining
      {
        var k := AnyElement(remaining);
        remaining := remaining - {k};
        if states[k].createdAt == 0 || now - states[k].createdAt > PRUNE_AGE {
          states := states - {k};
        }
      }
      SnapshotPruned(before, states, now);
    }

    method GetStreamUsage(key: string, now: int) returns (r: Reply)
      requires Valid()
      modifies this
      ensures Valid() && states.Values <= old(states.Values)
      ensures (View(), r) == OnGetUsage(old(View()), key, now)
    {
      hide Prune, Snapshot;
      PruneStaleStates(now);
      pendingJSON := pendingJSON - {key};
      r := UsageOf(None);
      SnapshotWithout(states, key);
      SnapshotAt(states, key);
      if key in states {
        var state := states[key];
        states := states - {key};
        r := UsageOf(state.usage);
      } else {
        assert states - {key} == states;
      }
    }

    method ClearStreamState(key: string, now: int) returns (r: Reply)
      requires Valid()
      modifies this
      ensures Valid() && states.Values <= old(states.Values)
      ensures (View(), r) == OnClear(old(View()), key, now)
    {
      hide Prune, Snapshot;
      PruneStaleStates(now);
      SnapshotWithout(states, key);
      states := states - {key};
      pendingJSON := pendingJSON - {key};
      r := Cleared;
    }

    /** The part that works on the state record, outside the table. */
    method TranslateIn(key: string, c: Chunk) returns (events: seq<Event>, order: seq<int>)
      requires Valid() && key in states
      modifies states[key]
      ensures key in old(View()).states && Visits(old(View()).states[key], c, order)
      ensures var out := Step(old(View()).states[key], c, order, codec.sanitize);
              events == out.events && View() == old(View()).(states := old(View()).states[key := out.state])
    {
      hide Snapshot, Step, Visits, StreamState.View;
      ghost var before := Snapshot(states);
      forall k | k in states ensures states[k].View() == before[k] {
        SnapshotAt(states, k);
      }
      events, order := states[key].Translate(c, codec.sanitize);
      SnapshotIs(states, before[key := states[key].View()]);
    }

    /** Makes sure the session has a state; a chunk without choices does not give it one. */
    method FindOrCreate(key: string, c: Chunk, now: int, newId: string) returns (found: bool)
      requires Valid()
      modifies this`states
      ensures Valid() && fresh(states.Values - old(states.Values))
      ensures var pruned := Prune(old(View()).states, now);
              && found == (key in pruned || c.choices != [])
              && (found ==> key in states)
              && View() == old(View()).(states := if key in pruned || !found then pruned else pruned[key := NewState(now, c, newId)])
    {
      hide Prune, NewState, Snapshot, StreamState.View;
      PruneStaleStates(now);
      if key !in states {
        if |c.choices| == 0 {
          return false;
        }
        var state := new StreamState(now, c, newId);
        SnapshotWith(states, key, state);
        states := states[key := state];
      }
      return true;
    }

    method TranslateChunk(key: string, c: Chunk, now: int, newId: string) returns (r: Reply, order: seq<int>)
      requires Valid()
      modifies this`states, states.Values
      ensures Valid() && fresh(states.Values - old(states.Values))
      ensures ChunkVisits(old(View()), key, c, now, newId, order)
      ensures (View(), r) == OnChunk(old(View()), key, c, now, newId, order, codec)
    {
      hide Prune, Step, NewState, Snapshot, Visits, StreamState.View, OnChunk;
      ChunkSteps(View(), key, c, now, newId, codec);
      ghost var pruned := Prune(View().states, now);
      var found := FindOrCreate(key, c, now, newId);
      if !found {
        return Events([]), [];
      }
      var events;
      events, order := TranslateIn(key, c);
      assert pruned[key := NewState(now, c, newId)][key := View().states[key]] == pruned[key := View().states[key]];
      r := Events(events);
    }

    method Translate(key: string, raw: string, now: int, newId: string) returns (r: Reply, order: seq<int>)
      requires Valid()
      modifies this, states.Values
      ensures Valid() && fresh(states.Values - old(states.Values))
      ensures TranslateVisits(old(View()), key, raw, now, newId, order, codec)
      ensures (View(), r) == OnTranslate(old(View()), key, raw, now, newId, order, codec)
    {
      hide Snapshot, OnChunk, TrimSpace, ChunkVisits;
      order := [];
      var trimmed := TrimSpace(raw);
      if trimmed == "" {
        return Events([]), [];
      }
      if trimmed == "[DONE]" {
        return DoneFrame, [];
      }
      var dataPart := trimmed;
      if HasPrefix(trimmed, "data:") {
        dataPart := TrimSpace(trimmed[5..]);
        if dataPart == "[DONE]" {
          return DoneFrame, [];
        }
      }
      if key != "" && key in pendingJSON {
        dataPart := pendingJSON[key] + dataPart;
        pendingJSON := pendingJSON - {key};
      } else {
        assert "" + dataPart == dataPart;
        assert pendingJSON - {key} == pendingJSON || key == "";
      }
      assert dataPart == Buffered(old(View()), key) + Receive(raw).payload;
      match codec.parse(dataPart) {
        case Parsed(c) =>
          VisitsIgnorePending(old(View()), View(), StateKey(key, c), c, now, newId);
          r, order := TranslateChunk(StateKey(key, c), c, now, newId);
        case Truncated =>
          if key != "" && |dataPart| < MAX_PENDING_JSON {
            pendingJSON := pendingJSON[key := dataPart];
            r := Events([]);
          } else {
            r := Failed;
          }
        case Malformed =>
          r := Failed;
      }
    }
  }
}
