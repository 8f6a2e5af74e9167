/** What a session's client receives, whatever other sessions do in between, is one run of
    the translator: the results about runs hold of the entry point. */
module SessionStreams {
  import opened Basics
  import opened Messages
  import opened StreamTranslator
  import opened EventGrammar
  import opened StreamGrammar
  import opened StreamRefinesBatch
  import opened Sessions
  import opened SessionIsolation

  /** Each translate call meets a tool map order that Go may produce. */
  ghost predicate OrdersMet(calls: seq<Call>, codec: Codec) {
    calls == [] ||
    (var init, last := calls[..|calls| - 1], calls[|calls| - 1];
     && OrdersMet(init, codec)
     && (last.TranslateCall? ==>
           TranslateVisits(ServeAll(EMPTY, init, codec).0, last.key, last.raw, last.now, last.newId, last.order, codec)))
  }

  /** The chunks session `k` has completed since it was last read or cleared. */
  function SessionTicks(calls: seq<Call>, k: string, codec: Codec): seq<Tick> {
    if calls == [] then [] else
    var init, last := calls[..|calls| - 1], calls[|calls| - 1];
    if !Touches(last, k, codec) then SessionTicks(init, k, codec)
    else if !last.TranslateCall? then []
    else SessionTicks(init, k, codec) + NewTick(ServeAll(EMPTY, init, codec).0, last, codec)
  }

  function NewTick(r: Registry, call: Call, codec: Codec): seq<Tick>
    requires call.TranslateCall?
  {
    match Completes(r, call.key, call.raw, codec)
    case Some(c) => [Tick(c, call.now, call.newId, call.order)]
    case None => []
  }

  function EventsIn(reply: Reply): seq<Event> {
    if reply.Events? then reply.events else []
  }

  /** The events session `k` has been sent since then. */
  function SessionEvents(calls: seq<Call>, k: string, codec: Codec): seq<Event> {
    if calls == [] then [] else
    var init, last := calls[..|calls| - 1], calls[|calls| - 1];
    if !Touches(last, k, codec) then SessionEvents(init, k, codec)
    else if !last.TranslateCall? then []
    else SessionEvents(init, k, codec) + EventsIn(Serve(ServeAll(EMPTY, init, codec).0, last, codec).1)
  }

  /** A call of the session itself is at most one step of it. */
  lemma {:induction false} OwnStep(r: Registry, call: Call, k: string, codec: Codec)
    requires call.TranslateCall? && Touches(call, k, codec) && Spares(r, call, k, codec)
    requires TranslateVisits(r, call.key, call.raw, call.now, call.newId, call.order, codec)
    ensures var (r', reply) := Serve(r, call, codec);
            var s, ticks := Find(r.states, k), NewTick(r, call, codec);
            if ticks == [] then Find(r'.states, k) == s && EventsIn(reply) == []
            else
              var out, c := Advance(s, ticks[0], codec.sanitize), ticks[0].chunk;
              && Find(r'.states, k) == out.state && EventsIn(reply) == out.events
              && ((s.None? && c.choices == []) || Visits(s.GetOr(NewState(call.now, c, call.newId)), c, call.order))
  {
    hide Prune, Step, Receive, Visits, NewState, Safe;
    PruneKeeps(r, k, call.now);
    OwnKey(r, call, k, codec);
  }

  /** The chunk a session's call completes is the session's. */
  lemma {:induction false} OwnKey(r: Registry, call: Call, k: string, codec: Codec)
    requires call.TranslateCall? && Touches(call, k, codec)
    ensures var c := Completes(r, call.key, call.raw, codec); c.Some? ==> StateKey(call.key, c.value) == k
  {
    hide Receive;
    if Receive(call.raw).Data? {
      var payload := Receive(call.raw).payload;
      assert "" + payload == payload;
    }
  }

  lemma {:induction false} OtherStep(r: Registry, call: Call, k: string, codec: Codec)
    requires !Touches(call, k, codec) && Spares(r, call, k, codec)
    ensures Find(Serve(r, call, codec).0.states, k) == Find(r.states, k)
  {
    hide Prune, Step, Receive, Safe, Advance;
    PruneKeeps(r, k, call.now);
    if call.TranslateCall? && Receive(call.raw).Data? {
      var payload := Receive(call.raw).payload;
      assert "" + payload == payload;
    }
  }

  /** In every interleaving in which its state is not pruned, what a session has been sent
      since it was last read or cleared, and the state it has, are those of one run of
      the translator over its chunks. */
  lemma {:induction false} SessionIsARun(calls: seq<Call>, k: string, codec: Codec)
    requires Undisturbed(EMPTY, calls, k, codec) && OrdersMet(calls, codec)
    ensures var ts := SessionTicks(calls, k, codec);
            && ValidRun(ts, codec.sanitize)
            && Run(ts, codec.sanitize) == Session(Find(ServeAll(EMPTY, calls, codec).0.states, k), SessionEvents(calls, k, codec))
  {
    hide Touches, Serve, Spares, TranslateVisits, Advance, Visits;
    if calls != [] {
      var init, last := calls[..|calls| - 1], calls[|calls| - 1];
      var r := ServeAll(EMPTY, init, codec).0;
      SessionIsARun(init, k, codec);
      if !Touches(last, k, codec) {
        OtherStep(r, last, k, codec);
      } else if last.TranslateCall? {
        OwnStep(r, last, k, codec);
        var before, new' := SessionTicks(init, k, codec), NewTick(r, last, codec);
        if new' == [] {
          assert before + new' == before;
          assert SessionEvents(init, k, codec) + [] == SessionEvents(init, k, codec);
        } else {
          assert (before + new')[..|before|] == before;
        }
      } else {
        EndsSession(r, last, k, codec);
      }
    }
  }

  lemma {:induction false} EndsSession(r: Registry, call: Call, k: string, codec: Codec)
    requires !call.TranslateCall? && Touches(call, k, codec)
    ensures Find(Serve(r, call, codec).0.states, k) == None
  {
  }

  /** What the session has been sent is a complete Claude message exactly when its chunks
      are well-behaved. */
  lemma {:induction false} SessionIsWellFormedIff(calls: seq<Call>, k: string, codec: Codec)
    requires Undisturbed(EMPTY, calls, k, codec) && OrdersMet(calls, codec)
    ensures WellFormed(SessionEvents(calls, k, codec)) <==> WellBehaved(Chunks(SessionTicks(calls, k, codec)))
  {
    hide WellFormed, WellBehaved, Undisturbed, OrdersMet;
    SessionIsARun(calls, k, codec);
    WellFormedIffWellBehaved(SessionTicks(calls, k, codec), codec.sanitize);
  }

  /** And it is the batch translation of its merged response exactly when the deltas came
      in order and every tool call has arguments. */
  lemma {:induction false} SessionRefinesBatch(calls: seq<Call>, k: string, codec: Codec)
    requires Undisturbed(EMPTY, calls, k, codec) && OrdersMet(calls, codec)
    requires forall n :: codec.sanitize(n, "") == ""
    ensures var ts := SessionTicks(calls, k, codec);
            WellBehaved(Chunks(ts)) && Conformant(Chunks(ts)) ==> Refines(ts, Received(SessionEvents(calls, k, codec)), codec.sanitize)
  {
    hide WellBehaved, Conformant, Undisturbed, OrdersMet, Refines, Received;
    var ts := SessionTicks(calls, k, codec);
    SessionIsARun(calls, k, codec);
    if WellBehaved(Chunks(ts)) && Conformant(Chunks(ts)) {
      StreamRefinesBatch.StreamRefinesBatch(ts, codec.sanitize);
    }
  }
}
