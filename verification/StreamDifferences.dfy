/** Two streams, conformant and well-behaved, whose client does not end up with the batch
    translation: one breaks the order, one has a call without arguments. */
module StreamDifferences {
  import opened Basics
  import opened Messages
  import opened StreamTranslator
  import opened StreamGrammar
  import opened StreamRefinesBatch

  /** A call without arguments: the batch form says `{}`, the stream nothing. */
  lemma {:induction false} NoArgumentsDiffer(san: Sanitizer) returns (t: Tick)
    requires forall n :: san(n, "") == ""
    ensures ValidRun([t], san) && WellBehaved([t.chunk]) && Conformant([t.chunk]) && Ordered([t.chunk])
    ensures BatchOf([t], san).Ok? && Received(Run([t], san).events) != BatchOf([t], san).value
  {
    hide Run, ValidRun, AddFragment, Received, BatchOf, MergeFragments;
    var tc := ToolCallFragment(None, "a", None);
    var c := OneChunk(Delta("", "", "", [tc]), Some("tool_calls"));
    t := Tick(c, 1, "id", [0]);
    var s := StartMessage(TakeUsage(NewState(1, c, "id"), c)).state;
    OneTool(s, tc);
    OneTick(t, san);
    assert [c][..1] == [c] && [c][..0] == [] && [tc][..0] == [];
    assert FragmentsFollow([], [tc]);
    StreamRefinesBatch.StreamRefinesBatch([t], san);
    OneMerged(c, tc);
    assert tc in MergeAll([c]).tools;
  }

  lemma {:induction false} OneMerged(c: Chunk, tc: ToolCallFragment)
    requires c.choices != [] && c.choices[0].delta.toolCalls == [tc] && tc.id != ""
    ensures MergeAll([c]).tools == [tc]
  {
    assert [c][..0] == [] && [tc][..0] == [];
    assert MergeAll([c][..0]) == NOTHING_MERGED;
    assert MergeFragments([], [tc][..0]) == [];
  }

  /** Thinking that comes after text stays behind it in the stream. */
  lemma {:induction false} LateThinkingDiffers(san: Sanitizer) returns (ts: seq<Tick>)
    requires forall n :: san(n, "") == ""
    ensures ValidRun(ts, san) && WellBehaved(Chunks(ts)) && Conformant(Chunks(ts)) && ArgumentsPresent(Chunks(ts))
    ensures BatchOf(ts, san).Ok? && Received(Run(ts, san).events) != BatchOf(ts, san).value
  {
    hide Run, ValidRun, Received, BatchOf, Step, Visits, WellBehaved, Conformant, ArgumentsPresent, FirstFinish;
    var c, d := OneChunk(Delta("text", "", "", []), None), OneChunk(Delta("", "thinking", "", []), Some("stop"));
    var t, u := Tick(c, 1, "id", []), Tick(d, 2, "id", []);
    ts := [t, u];
    TwoTicks(t, u, san);
    TwoChunks(c, d);
    StreamRefinesBatch.StreamRefinesBatch(ts, san);
    assert !OrderedPair(Chunks(ts)[0], Chunks(ts)[1]);
  }

  predicate Toolless(c: Chunk) {
    c.choices != [] && c.choices[0].delta.toolCalls == []
  }

  lemma {:induction false} NoTools(c: Chunk)
    requires Toolless(c)
    ensures Announced(c) == []
  {
  }

  lemma {:induction false} ToolsUntouched(s: State, c: Chunk)
    requires Toolless(c)
    ensures BeforeFinish(s, c).state.toolCalls == s.toolCalls
  {
    hide TakeUsage, StartMessage, AddReasoning, AddContent;
    StartKeepsTools(s, c);
    BlocksKeepTools(StartMessage(TakeUsage(s, c)).state, c.choices[0].delta);
  }

  lemma {:induction false} BlocksKeepTools(s: State, d: Delta)
    ensures AddContent(AddReasoning(s, ReasoningText(d)).state, d.content).state.toolCalls == s.toolCalls
  {
    hide AddReasoning, AddContent, ReasoningText;
    ReasoningKeepsTools(s, ReasoningText(d));
    ContentKeepsTools(AddReasoning(s, ReasoningText(d)).state, d.content);
  }

  lemma {:induction false} ReasoningKeepsTools(s: State, reasoning: string)
    ensures AddReasoning(s, reasoning).state.toolCalls == s.toolCalls
  {
  }

  lemma {:induction false} ContentKeepsTools(s: State, content: string)
    ensures AddContent(s, content).state.toolCalls == s.toolCalls
  {
  }

  lemma {:induction false} StartKeepsTools(s: State, c: Chunk)
    ensures StartMessage(TakeUsage(s, c)).state.toolCalls == s.toolCalls
  {
  }

  lemma {:induction false} NothingMerged(cs: seq<Chunk>)
    requires forall c :: c in cs ==> Toolless(c)
    ensures MergeAll(cs).tools == [] && AnnouncedAll(cs) == []
  {
    if cs != [] {
      var init, c := cs[..|cs| - 1], cs[|cs| - 1];
      assert cs == init + [c];
      NothingMerged(init);
      NoTools(c);
    }
  }

  lemma {:induction false} TwoChunks(c: Chunk, d: Chunk)
    requires Toolless(c) && Toolless(d) && !Finishes(c) && Finishes(d)
    ensures WellBehaved([c, d]) && Conformant([c, d]) && ArgumentsPresent([c, d])
  {
    hide Finishes, Silent, MergeAll, AnnouncedAll;
    assert [c, d][..1] == [c] && [c][..0] == [] && [c, d][..2] == [c, d];
    assert FirstFinish([c][..0]) == 0;
    assert FirstFinish([c]) == 1 && FirstFinish([c, d]) == 1;
    NothingMerged([c, d]);
  }

  lemma {:induction false} TwoTicks(t: Tick, u: Tick, san: Sanitizer)
    requires t.chunk.choices != [] && u.chunk.choices != [] && t.order == u.order == []
    requires Toolless(t.chunk) && Toolless(u.chunk) && !Finishes(t.chunk)
    ensures ValidRun([t, u], san) && Chunks([t, u]) == [t.chunk, u.chunk]
  {
    hide BeforeFinish, NewState;
    assert [t, u][..1] == [t] && [t][..0] == [];
    assert ValidRun([t], san);
    var s := NewState(t.now, t.chunk, t.newId);
    StepWithoutFinish(s, t.chunk, [], san);
    NewHasNoTools(t);
    ToolsUntouched(s, t.chunk);
    ToolsUntouched(BeforeFinish(s, t.chunk).state, u.chunk);
    assert Run([t][..0], san) == Session(None, []);
    assert Run([t], san).state == Some(BeforeFinish(s, t.chunk).state);
  }

  lemma {:induction false} NewHasNoTools(t: Tick)
    ensures NewState(t.now, t.chunk, t.newId).toolCalls == map[]
  {
  }
}
