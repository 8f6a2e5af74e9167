/** The per-session state machine that turns OpenAI chunk deltas into Claude
    stream events (backend/internal/translator/response.go).

    `State` and the functions on it say what a chunk does; class `StreamState`
    is the record the translator updates in place. */
module StreamTranslator {
  import opened Basics
  import opened Messages

  datatype ToolCallState = ToolCallState(id: string, name: string, blockIndex: int)

  datatype State = State(
    createdAt: int, messageStartSent: bool, messageId: string, model: string, nextBlockIndex: int,
    textBlockStarted: bool, textBlockClosed: bool, textBlockIndex: int,
    thinkingBlockStarted: bool, thinkingBlockIndex: int,
    toolCalls: map<int, ToolCallState>, toolArgBuffers: map<int, string>,
    finishReason: string, usage: Option<OpenAIUsage>)

  datatype Out = Out(state: State, events: seq<Event>)

  function NewState(now: int, c: Chunk, newId: string): State {
    State(now, false, CleanMessageId(c.id, newId), ModelName(c.model), 0, false, false, 0, false, 0, map[], map[], "", None)
  }

  function MergeUsage(current: Option<OpenAIUsage>, u: OpenAIUsage): OpenAIUsage {
    var base := current.GetOr(NO_USAGE);
    base.(promptTokens := if u.promptTokens > 0 then u.promptTokens else base.promptTokens,
          completionTokens := if u.completionTokens > 0 then u.completionTokens else base.completionTokens,
          cachedTokens := if CachedTokens(u) > 0 then CachedTokens(u) else base.cachedTokens,
          cacheCreationTokens := if u.cacheCreationTokens > 0 then u.cacheCreationTokens else base.cacheCreationTokens,
          reasoningTokens := if u.reasoningTokens.Some? then u.reasoningTokens else base.reasoningTokens)
  }

  function TakeUsage(s: State, c: Chunk): State {
    if c.usage.None? then s else s.(usage := Some(MergeUsage(s.usage, c.usage.value)))
  }

  function StartMessage(s: State): Out {
    if s.messageStartSent then Out(s, [])
    else Out(s.(messageStartSent := true), [MessageStart(s.messageId, s.model)])
  }

  function StopThinking(s: State): Out {
    if !s.thinkingBlockStarted then Out(s, [])
    else Out(s.(thinkingBlockStarted := false), [BlockStop(s.thinkingBlockIndex)])
  }

  function StopText(s: State): Out {
    if !s.textBlockStarted || s.textBlockClosed then Out(s, [])
    else Out(s.(textBlockClosed := true, textBlockStarted := false), [BlockStop(s.textBlockIndex)])
  }

  function OpenThinking(s: State): Out {
    if s.thinkingBlockStarted then Out(s, [])
    else Out(s.(thinkingBlockIndex := s.nextBlockIndex, nextBlockIndex := s.nextBlockIndex + 1, thinkingBlockStarted := true),
             [BlockStart(s.nextBlockIndex, Thinking)])
  }

  function OpenText(s: State): Out {
    if s.textBlockStarted then Out(s, [])
    else Out(s.(textBlockIndex := s.nextBlockIndex, nextBlockIndex := s.nextBlockIndex + 1, textBlockStarted := true,
                textBlockClosed := false),
             [BlockStart(s.nextBlockIndex, Text)])
  }

  function AddReasoning(s: State, reasoning: string): Out {
    if reasoning == "" then Out(s, []) else
    var stopped := StopText(s);
    var opened' := OpenThinking(stopped.state);
    Out(opened'.state, stopped.events + opened'.events + [BlockDelta(opened'.state.thinkingBlockIndex, ThinkingDelta(reasoning))])
  }

  function AddContent(s: State, content: string): Out {
    if content == "" then Out(s, []) else
    var stopped := StopThinking(s);
    var opened' := OpenText(stopped.state);
    Out(opened'.state, stopped.events + opened'.events + [BlockDelta(opened'.state.textBlockIndex, TextDelta(content))])
  }

  function StopBoth(s: State): Out {
    var a := StopThinking(s);
    var b := StopText(a.state);
    Out(b.state, a.events + b.events)
  }

  /** A fragment that carries an id opens a tool block. */
  function AnnounceTool(s: State, tc: ToolCallFragment): Out {
    if tc.id == "" then Out(s, []) else
    var stopped := StopBoth(s);
    var index := stopped.state.nextBlockIndex;
    Out(stopped.state.(nextBlockIndex := index + 1,
                       toolCalls := stopped.state.toolCalls[FragmentIndex(tc) := ToolCallState(tc.id, ToolName(tc), index)]),
        stopped.events + [BlockStart(index, ToolUse(tc.id, ToolName(tc)))])
  }

  type BufferMap = map<int, string>

  function Lookup(buffers: BufferMap, idx: int): string {
    if idx in buffers then buffers[idx] else ""
  }

  function BufferArguments(s: State, tc: ToolCallFragment): State {
    if Arguments(tc) == "" then s
    else s.(toolArgBuffers := s.toolArgBuffers[FragmentIndex(tc) := Lookup(s.toolArgBuffers, FragmentIndex(tc)) + Arguments(tc)])
  }

  function AddFragment(s: State, tc: ToolCallFragment): Out {
    var out := AnnounceTool(s, tc);
    out.(state := BufferArguments(out.state, tc))
  }

  function AddFragments(s: State, tcs: seq<ToolCallFragment>): Out {
    if tcs == [] then Out(s, []) else
    var before := AddFragments(s, tcs[..|tcs| - 1]);
    var last := AddFragment(before.state, tcs[|tcs| - 1]);
    Out(last.state, before.events + last.events)
  }

  /** The buffered arguments of the tools listed in `order`, each followed by its stop. */
  function FlushTools(s: State, order: seq<int>, san: Sanitizer): seq<Event> {
    if order == [] then [] else
    var idx := order[|order| - 1];
    var before := FlushTools(s, order[..|order| - 1], san);
    if idx !in s.toolCalls then before else before + FlushTool(s, idx, san)
  }

  lemma {:induction false} NothingFlushed(s: State, san: Sanitizer)
    ensures FlushTools(s, [], san) == []
  {
  }

  lemma {:induction false} OneMoreFlushed(s: State, order: seq<int>, idx: int, san: Sanitizer)
    requires idx in s.toolCalls
    ensures FlushTools(s, order + [idx], san) == FlushTools(s, order, san) + FlushTool(s, idx, san)
  {
    hide FlushTool;
    assert (order + [idx])[..|order|] == order;
  }

  function FlushTool(s: State, idx: int, san: Sanitizer): seq<Event>
    requires idx in s.toolCalls
  {
    var tool := s.toolCalls[idx];
    [BlockDelta(tool.blockIndex, InputJsonDelta(san(tool.name, Lookup(s.toolArgBuffers, idx)))), BlockStop(tool.blockIndex)]
  }

  function Closing(s: State, finish: string): seq<Event> {
    var u := s.usage.GetOr(NO_USAGE);
    [MessageDelta(ClaudeStopReason(finish), u.promptTokens, u.completionTokens), MessageStop]
  }

  function Finish(s: State, finish: Option<string>, order: seq<int>, san: Sanitizer): Out {
    if finish.None? then Out(s, []) else
    var stopped := StopBoth(s);
    Out(stopped.state.(finishReason := finish.value),
        stopped.events + FlushTools(stopped.state, order, san) + Closing(s, finish.value))
  }

  /** Reasoning, content and tool fragments of one delta, in that order. */
  function AddDelta(s: State, d: Delta): Out {
    var r := AddReasoning(s, ReasoningText(d));
    var c := AddContent(r.state, d.content);
    var t := AddFragments(c.state, d.toolCalls);
    Out(t.state, r.events + c.events + t.events)
  }

  /** The state just before the finish reason is looked at. */
  function BeforeFinish(s: State, c: Chunk): Out {
    var started := StartMessage(TakeUsage(s, c));
    if c.choices == [] then started else
    var body := AddDelta(started.state, c.choices[0].delta);
    Out(body.state, started.events + body.events)
  }

  /** One chunk; `order` is the order in which Go happens to iterate over the tool map. */
  function Step(s: State, c: Chunk, order: seq<int>, san: Sanitizer): Out {
    var body := BeforeFinish(s, c);
    if c.choices == [] then body else
    var end := Finish(body.state, c.choices[0].finishReason, order, san);
    Out(end.state, body.events + end.events)
  }

  class StreamState {
    var createdAt: int
    var messageStartSent: bool
    var messageId: string
    var model: string
    var nextBlockIndex: int
    var textBlockStarted: bool
    var textBlockClosed: bool
    var textBlockIndex: int
    var thinkingBlockStarted: bool
    var thinkingBlockIndex: int
    var toolCalls: map<int, ToolCallState>
    var toolArgBuffers: map<int, string>
    var finishReason: string
    var usage: Option<OpenAIUsage>

    ghost function View(): State
      reads this
    {
      State(createdAt, messageStartSent, messageId, model, nextBlockIndex, textBlockStarted, textBlockClosed, textBlockIndex,
            thinkingBlockStarted, thinkingBlockIndex, toolCalls, toolArgBuffers, finishReason, usage)
    }

    constructor (now: int, c: Chunk, newId: string)
      ensures View() == NewState(now, c, newId)
    {
      createdAt, messageStartSent := now, false;
      messageId, model := CleanMessageId(c.id, newId), ModelName(c.model);
      nextBlockIndex := 0;
      textBlockStarted, textBlockClosed, textBlockIndex := false, false, 0;
      thinkingBlockStarted, thinkingBlockIndex := false, 0;
      toolCalls, toolArgBuffers := map[], map[];
      finishReason, usage := "", None;
    }

    method StopThinkingBlock(results: seq<Event>) returns (results': seq<Event>)
      modifies this
      ensures View() == StopThinking(old(View())).state
      ensures results' == results + StopThinking(old(View())).events
    {
      results' := results;
      if !thinkingBlockStarted {
        return;
      }
      results' := results' + [BlockStop(thinkingBlockIndex)];
      thinkingBlockStarted := false;
    }

    method StopTextBlock(results: seq<Event>) returns (results': seq<Event>)
      modifies this
      ensures View() == StopText(old(View())).state
      ensures results' == results + StopText(old(View())).events
    {
      results' := results;
      if !textBlockStarted || textBlockClosed {
        return;
      }
      textBlockClosed := true;
      results' := results' + [BlockStop(textBlockIndex)];
      textBlockStarted := false;
    }

    method StopOpenBlocks(results: seq<Event>) returns (results': seq<Event>)
      modifies this
      ensures View() == StopBoth(old(View())).state
      ensures toolCalls == old(toolCalls) && toolArgBuffers == old(toolArgBuffers) && usage == old(usage)
      ensures results' == results + StopBoth(old(View())).events
    {
      results' := StopThinkingBlock(results);
      results' := StopTextBlock(results');
    }

    method RecordUsage(c: Chunk)
      modifies this
      ensures View() == TakeUsage(old(View()), c)
    {
      if c.usage.Some? {
        usage := Some(MergeUsage(usage, c.usage.value));
      }
    }

    method OnReasoning(reasoning: string, results: seq<Event>) returns (results': seq<Event>)
      modifies this
      ensures View() == AddReasoning(old(View()), reasoning).state
      ensures results' == results + AddReasoning(old(View()), reasoning).events
    {
      results' := results;
      if reasoning != "" {
        results' := StopTextBlock(results');
        if !thinkingBlockStarted {
          thinkingBlockIndex := nextBlockIndex;
          nextBlockIndex := nextBlockIndex + 1;
          thinkingBlockStarted := true;
          results' := results' + [BlockStart(thinkingBlockIndex, Thinking)];
        }
        results' := results' + [BlockDelta(thinkingBlockIndex, ThinkingDelta(reasoning))];
      }
    }

    method OnContent(content: string, results: seq<Event>) returns (results': seq<Event>)
      modifies this
      ensures View() == AddContent(old(View()), content).state
      ensures results' == results + AddContent(old(View()), content).events
    {
      results' := results;
      if content != "" {
        results' := StopThinkingBlock(results');
        if !textBlockStarted {
          textBlockIndex := nextBlockIndex;
          nextBlockIndex := nextBlockIndex + 1;
          textBlockStarted := true;
          textBlockClosed := false;
          results' := results' + [BlockStart(textBlockIndex, Text)];
        }
        results' := results' + [BlockDelta(textBlockIndex, TextDelta(content))];
      }
    }

    method OnToolFragment(tc: ToolCallFragment, results: seq<Event>) returns (results': seq<Event>)
      modifies this
      ensures View() == AddFragment(old(View()), tc).state
      ensures results' == results + AddFragment(old(View()), tc).events
    {
      hide StopThinking, StopText;
      results' := results;
      var idx := FragmentIndex(tc);
      if tc.id != "" {
        results' := StopOpenBlocks(results');
        var toolBlockIndex := nextBlockIndex;
        nextBlockIndex := nextBlockIndex + 1;
        toolCalls := toolCalls[idx := ToolCallState(tc.id, ToolName(tc), toolBlockIndex)];
        results' := results' + [BlockStart(toolBlockIndex, ToolUse(tc.id, ToolName(tc)))];
      }
      if Arguments(tc) != "" {
        toolArgBuffers :=
          toolArgBuffers[idx := (if idx in toolArgBuffers then toolArgBuffers[idx] else "") + Arguments(tc)];
      }
    }

    method OnToolCalls(tcs: seq<ToolCallFragment>, results: seq<Event>) returns (results': seq<Event>)
      modifies this
      ensures View() == AddFragments(old(View()), tcs).state
      ensures results' == results + AddFragments(old(View()), tcs).events
    {
      hide AddFragment;
      results' := results;
      for n := 0 to |tcs|
        invariant View() == AddFragments(old(View()), tcs[..n]).state
        invariant results' == results + AddFragments(old(View()), tcs[..n]).events
      {
        assert tcs[..n + 1][..n] == tcs[..n];
        results' := OnToolFragment(tcs[n], results');
      }
      assert tcs[..|tcs|] == tcs;
    }

    method OnDelta(d: Delta, results: seq<Event>) returns (results': seq<Event>)
      modifies this
      ensures View() == AddDelta(old(View()), d).state
      ensures results' == results + AddDelta(old(View()), d).events
    {
      hide AddReasoning, AddContent, AddFragments;
      results' := OnReasoning(ReasoningText(d), results);
      results' := OnContent(d.content, results');
      results' := OnToolCalls(d.toolCalls, results');
    }

    /** Iterates over the tool map in an arbitrary order and reports that order. */
    method FlushToolCalls(san: Sanitizer, results: seq<Event>) returns (results': seq<Event>, order: seq<int>)
      ensures Enumerates(order, toolCalls.Keys)
      ensures results' == results + FlushTools(View(), order, san)
    {
      hide FlushTools;
      results', order := results, [];
      NothingFlushed(View(), san);
      var remaining := toolCalls.Keys;
      while remaining != {}
        invariant NoDuplicates(order) && remaining <= toolCalls.Keys
        invariant forall x :: x in order <==> x in toolCalls.Keys && x !in remaining
        invariant results' == results + FlushTools(View(), order, san)
        decreases remaining
      {
        var idx := AnyElement(remaining);
        assert idx !in order;
        var tool := toolCalls[idx];
        var buffered := if idx in toolArgBuffers then toolArgBuffers[idx] else "";
        results' := results' + [BlockDelta(tool.blockIndex, InputJsonDelta(san(tool.name, buffered)))];
        results' := results' + [BlockStop(tool.blockIndex)];
        OneMoreFlushed(View(), order, idx, san);
        order, remaining := order + [idx], remaining - {idx};
      }
      assert forall x :: x in order <==> x in toolCalls.Keys;
    }

    method OnFinish(finish: Option<string>, san: Sanitizer, results: seq<Event>)
      returns (results': seq<Event>, order: seq<int>)
      modifies this
      ensures if finish.Some? then Enumerates(order, old(View()).toolCalls.Keys) else order == []
      ensures View() == Finish(old(View()), finish, order, san).state
      ensures results' == results + Finish(old(View()), finish, order, san).events
    {
      results', order := results, [];
      hide FlushTools;
      if finish.Some? {
        results' := StopOpenBlocks(results');
        results', order := FlushToolCalls(san, results');
        finishReason := finish.value;
        var u := usage.GetOr(NO_USAGE);
        results' := results' + [MessageDelta(ClaudeStopReason(finish.value), u.promptTokens, u.completionTokens)];
        results' := results' + [MessageStop];
      }
    }

    /** Translates one chunk. The new state and the events are those of `Step`
        for the order in which the tool map was visited. */
    method Translate(c: Chunk, san: Sanitizer) returns (results: seq<Event>, order: seq<int>)
      modifies this
      ensures Visits(old(View()), c, order)
      ensures View() == Step(old(View()), c, order, san).state
      ensures results == Step(old(View()), c, order, san).events
    {
      hide TakeUsage, AddDelta, Finish;
      RecordUsage(c);
      results, order := [], [];
      if !messageStartSent {
        messageStartSent := true;
        results := results + [MessageStart(messageId, model)];
      }
      if |c.choices| == 0 {
        return;
      }
      var choice := c.choices[0];
      results := OnDelta(choice.delta, results);
      assert View() == BeforeFinish(old(View()), c).state;
      assert results == BeforeFinish(old(View()), c).events;
      results, order := OnFinish(choice.finishReason, san, results);
    }
  }

  /** The orders Go may produce: every tool once when the chunk finishes the message. */
  ghost predicate Visits(s: State, c: Chunk, order: seq<int>) {
    if Finishes(c) then Enumerates(order, BeforeFinish(s, c).state.toolCalls.Keys) else order == []
  }

  predicate Finishes(c: Chunk) {
    c.choices != [] && c.choices[0].finishReason.Some?
  }

  /** One delivered chunk, with the clock reading and generated id that go into a
      new state, and the tool map order met if the chunk finishes the message. */
  datatype Tick = Tick(chunk: Chunk, now: int, newId: string, order: seq<int>)

  datatype Session = Session(state: Option<State>, events: seq<Event>)

  /** A session has no state until a chunk with a choice arrives. */
  function Advance(state: Option<State>, t: Tick, san: Sanitizer): Session {
    if state.None? && t.chunk.choices == [] then Session(None, []) else
    var out := Step(state.GetOr(NewState(t.now, t.chunk, t.newId)), t.chunk, t.order, san);
    Session(Some(out.state), out.events)
  }

  /** All the events of a session, chunk after chunk. */
  function Run(ts: seq<Tick>, san: Sanitizer): Session {
    if ts == [] then Session(None, []) else
    var before := Run(ts[..|ts| - 1], san);
    var last := Advance(before.state, ts[|ts| - 1], san);
    Session(last.state, before.events + last.events)
  }

  /** Every tool map order in the run is one Go may produce. */
  ghost predicate ValidRun(ts: seq<Tick>, san: Sanitizer) {
    ts == [] ||
    (var before, t := ts[..|ts| - 1], ts[|ts| - 1];
     && ValidRun(before, san)
     && (var state := Run(before, san).state;
         (state.None? && t.chunk.choices == []) ||
         Visits(state.GetOr(NewState(t.now, t.chunk, t.newId)), t.chunk, t.order)))
  }

  function Chunks(ts: seq<Tick>): seq<Chunk> {
    seq(|ts|, i requires 0 <= i < |ts| => ts[i].chunk)
  }
}
