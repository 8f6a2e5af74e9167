/** A client that assembles the streamed events gets the message the batch
    translation would have produced, exactly when the deltas arrive in order and
    every tool has arguments. */
module StreamRefinesBatch {
  import opened Basics
  import opened Messages
  import opened StreamTranslator
  import opened BatchTranslator
  import opened StreamGrammar

  // ----- what a client assembles from the events -----

  function EmptyBlock(k: BlockKind): Block {
    match k
    case Thinking => ThinkingBlock("")
    case Text => TextBlock("")
    case ToolUse(id, name) => ToolUseBlock(id, name, "")
  }

  function Extend(b: Block, d: BlockContent): Block {
    match (b, d)
    case (ThinkingBlock(t), ThinkingDelta(more)) => ThinkingBlock(t + more)
    case (TextBlock(t), TextDelta(more)) => TextBlock(t + more)
    case (ToolUseBlock(id, name, input), InputJsonDelta(more)) => ToolUseBlock(id, name, input + more)
    case _ => b
  }

  function Assemble(m: ClaudeMessage, e: Event): ClaudeMessage {
    match e
    case MessageStart(id, model) => m.(id := id, model := model)
    case BlockStart(_, k) => m.(content := m.content + [EmptyBlock(k)])
    case BlockDelta(i, d) => if 0 <= i < |m.content| then m.(content := m.content[i := Extend(m.content[i], d)]) else m
    case BlockStop(_) => m
    case MessageDelta(stop, _, _) => m.(stopReason := stop)
    case MessageStop => m
  }

  function AssembleAll(m: ClaudeMessage, es: seq<Event>): ClaudeMessage {
    if es == [] then m else Assemble(AssembleAll(m, es[..|es| - 1]), es[|es| - 1])
  }

  const NOTHING := ClaudeMessage("", "", [], "")

  function Received(es: seq<Event>): ClaudeMessage {
    AssembleAll(NOTHING, es)
  }

  // ----- the whole response the deltas are pieces of -----

  datatype Merged = Merged(reasoning: string, content: string, tools: seq<ToolCallFragment>, finish: Option<string>)

  const NOTHING_MERGED := Merged("", "", [], None)

  function WithArguments(tc: ToolCallFragment, more: string): ToolCallFragment {
    if more == "" then tc
    else tc.(func := Some(FunctionFragment(if tc.func.Some? then tc.func.value.name else "", Arguments(tc) + more)))
  }

  /** A fragment with an id is a new tool call; one without adds arguments to the call at its index. */
  function MergeFragment(tools: seq<ToolCallFragment>, tc: ToolCallFragment): seq<ToolCallFragment> {
    if tc.id != "" then tools + [tc]
    else seq(|tools|, j requires 0 <= j < |tools| =>
             if FragmentIndex(tools[j]) == FragmentIndex(tc) then WithArguments(tools[j], Arguments(tc)) else tools[j])
  }

  function MergeFragments(tools: seq<ToolCallFragment>, tcs: seq<ToolCallFragment>): seq<ToolCallFragment> {
    if tcs == [] then tools else MergeFragment(MergeFragments(tools, tcs[..|tcs| - 1]), tcs[|tcs| - 1])
  }

  function MergeChunk(g: Merged, c: Chunk): Merged {
    if c.choices == [] then g else
    var d := c.choices[0].delta;
    Merged(g.reasoning + ReasoningText(d), g.content + d.content, MergeFragments(g.tools, d.toolCalls),
           if Finishes(c) then c.choices[0].finishReason else g.finish)
  }

  function MergeAll(cs: seq<Chunk>): Merged {
    if cs == [] then NOTHING_MERGED else MergeChunk(MergeAll(cs[..|cs| - 1]), cs[|cs| - 1])
  }

  function FirstChoice(ts: seq<Tick>): (k: nat)
    ensures k <= |ts|
  {
    if ts == [] then 0
    else if ts[0].chunk.choices != [] then 0
    else 1 + FirstChoice(ts[1..])
  }

  function WholeResponse(first: Chunk, g: Merged): Response {
    Response(first.id, first.model, [ResponseChoice(ResponseMessage(g.content, g.reasoning, "", g.tools), g.finish)])
  }

  // ----- the conditions -----

  function ReasoningIn(c: Chunk): string {
    if c.choices == [] then "" else ReasoningText(c.choices[0].delta)
  }

  function ContentIn(c: Chunk): string {
    if c.choices == [] then "" else c.choices[0].delta.content
  }

  /** Fragments without an id come after the id of their index, and carry only arguments. */
  predicate FragmentsFollow(ann: seq<int>, tcs: seq<ToolCallFragment>) {
    tcs == [] ||
    (var init, tc := tcs[..|tcs| - 1], tcs[|tcs| - 1];
     && FragmentsFollow(ann, init)
     && (tc.id != "" || (FragmentIndex(tc) in ann + AnnouncedIn(init) && (tc.func.None? || tc.func.value.name == ""))))
  }

  predicate NoArguments(c: Chunk) {
    c.choices == [] || forall tc :: tc in c.choices[0].delta.toolCalls ==> Arguments(tc) == ""
  }

  /** The tool-call protocol: the id and name of a call come first, and no arguments
      follow the finishing chunk. */
  ghost predicate Conformant(cs: seq<Chunk>) {
    && (forall k :: 0 <= k < |cs| && cs[k].choices != [] ==>
          FragmentsFollow(AnnouncedAll(cs[..k]), cs[k].choices[0].delta.toolCalls))
    && (forall k :: FirstFinish(cs) < k < |cs| ==> NoArguments(cs[k]))
  }

  /** Reasoning, then content, then tool calls: no reasoning in a chunk after one with
      content or a tool id, no content in a chunk after one with a tool id. */
  ghost predicate Ordered(cs: seq<Chunk>) {
    forall i, j :: 0 <= i < j < |cs| ==> OrderedPair(cs[i], cs[j])
  }

  predicate OrderedPair(earlier: Chunk, later: Chunk) {
    && (ReasoningIn(later) != "" ==> ContentIn(earlier) == "" && Announced(earlier) == [])
    && (ContentIn(later) != "" ==> Announced(earlier) == [])
  }

  ghost predicate ArgumentsPresent(cs: seq<Chunk>) {
    forall tc :: tc in MergeAll(cs).tools ==> Arguments(tc) != ""
  }

  // ----- assembling a concatenation -----

  lemma {:induction false} AssembleConcat(m: ClaudeMessage, a: seq<Event>, b: seq<Event>)
    ensures AssembleAll(m, a + b) == AssembleAll(AssembleAll(m, a), b)
    decreases |b|
  {
    if b == [] {
      assert a + b == a;
    } else {
      assert (a + b)[..|a + b| - 1] == a + b[..|b| - 1];
      AssembleConcat(m, a, b[..|b| - 1]);
    }
  }

  lemma {:induction false} AssembleOne(m: ClaudeMessage, e: Event)
    ensures AssembleAll(m, [e]) == Assemble(m, e)
  {
    assert [e][..0] == [];
    assert AssembleAll(m, [e][..0]) == m;
  }

  // ----- out-of-order blocks never go away -----

  function Rank(b: Block): nat {
    match b
    case ThinkingBlock(_) => 0
    case TextBlock(_) => 1
    case ToolUseBlock(_, _, _) => 2
  }

  ghost predicate Inverted(bs: seq<Block>) {
    exists p, q :: 0 <= p < q < |bs| && Rank(bs[p]) > Rank(bs[q])
  }

  lemma {:induction false} InvertedForGood(m: ClaudeMessage, es: seq<Event>)
    requires Inverted(m.content)
    ensures Inverted(AssembleAll(m, es).content)
  {
    if es != [] {
      var m1 := AssembleAll(m, es[..|es| - 1]);
      InvertedForGood(m, es[..|es| - 1]);
      var p, q :| 0 <= p < q < |m1.content| && Rank(m1.content[p]) > Rank(m1.content[q]);
      var m2 := Assemble(m1, es[|es| - 1]);
      assert Rank(m2.content[p]) == Rank(m1.content[p]) && Rank(m2.content[q]) == Rank(m1.content[q]);
    }
  }

  lemma {:induction false} BatchNotInverted(resp: Response, newId: string, san: Sanitizer)
    requires resp.choices != []
    ensures !Inverted(TranslateResponse(resp, newId, san).value.content)
  {
  }

  // ----- while the deltas are in order, the client has the merged message so far -----

  function OpenTools(tools: seq<ToolCallFragment>): seq<Block> {
    seq(|tools|, j requires 0 <= j < |tools| => ToolUseBlock(tools[j].id, ToolName(tools[j]), ""))
  }

  function Lead(g: Merged): seq<Block> {
    ThinkingPart(g.reasoning) + TextPart(g.content)
  }

  type ToolMap = map<int, ToolCallState>

  ghost predicate ToolMatches(calls: ToolMap, buffers: BufferMap, block: int, tc: ToolCallFragment) {
    var idx := FragmentIndex(tc);
    idx in calls && calls[idx] == ToolCallState(tc.id, ToolName(tc), block) && Lookup(buffers, idx) == Arguments(tc)
  }

  /** The tool map and the argument buffers hold the merged calls, numbered from `base`. */
  ghost predicate ToolsMatch(calls: ToolMap, buffers: BufferMap, base: int, tools: seq<ToolCallFragment>) {
    && (forall j :: 0 <= j < |tools| ==> ToolMatches(calls, buffers, base + j, tools[j]))
    && (forall x :: x in calls <==> x in Indices(tools))
    && (forall x :: x in buffers ==> x in calls)
    && NoDuplicates(Indices(tools))
  }

  ghost predicate BlocksMatch(s: State, g: Merged) {
    && s.nextBlockIndex == |Lead(g)| + |g.tools|
    && s.thinkingBlockStarted == (g.reasoning != "" && g.content == "" && g.tools == [])
    && (s.thinkingBlockStarted ==> s.thinkingBlockIndex == 0)
    && s.textBlockStarted == (g.content != "" && g.tools == [])
    && (s.textBlockStarted ==> s.textBlockIndex == |ThinkingPart(g.reasoning)| && !s.textBlockClosed)
  }

  ghost predicate Matches(s: State, m: ClaudeMessage, g: Merged) {
    && m.id == s.messageId && m.model == s.model
    && m.content == Lead(g) + OpenTools(g.tools)
    && BlocksMatch(s, g)
    && ToolsMatch(s.toolCalls, s.toolArgBuffers, |Lead(g)|, g.tools)
  }

  lemma {:induction false} StopThinkingSilent(s: State, m: ClaudeMessage)
    ensures AssembleAll(m, StopThinking(s).events) == m
  {
    AssembleOne(m, BlockStop(s.thinkingBlockIndex));
  }

  lemma {:induction false} StopTextSilent(s: State, m: ClaudeMessage)
    ensures AssembleAll(m, StopText(s).events) == m
  {
    AssembleOne(m, BlockStop(s.textBlockIndex));
  }

  lemma {:induction false} StopBothSilent(s: State, m: ClaudeMessage)
    ensures AssembleAll(m, StopBoth(s).events) == m
  {
    var a := StopThinking(s);
    StopThinkingSilent(s, m);
    StopTextSilent(a.state, m);
    AssembleConcat(m, a.events, StopText(a.state).events);
  }

  /** The blocks after some reasoning: a new thinking block unless one is open. */
  lemma {:induction false} AssembleReasoning(s: State, m: ClaudeMessage, text: string)
    requires text != "" && s.nextBlockIndex == |m.content|
    ensures var o := AddReasoning(s, text);
            var m' := AssembleAll(m, o.events);
            && m' == m.(content := m'.content)
            && (!s.thinkingBlockStarted ==> m'.content == m.content + [ThinkingBlock(text)])
            && (s.thinkingBlockStarted && 0 <= s.thinkingBlockIndex < |m.content| ==>
                  m'.content == m.content[s.thinkingBlockIndex := Extend(m.content[s.thinkingBlockIndex], ThinkingDelta(text))])
  {
    var a := StopText(s);
    StopTextSilent(s, m);
    var b := OpenThinking(a.state);
    var e := BlockDelta(b.state.thinkingBlockIndex, ThinkingDelta(text));
    AssembleConcat(m, a.events, b.events);
    AssembleConcat(m, a.events + b.events, [e]);
    AssembleOne(m, BlockStart(a.state.nextBlockIndex, Thinking));
    AssembleOne(AssembleAll(m, b.events), e);
    if !s.thinkingBlockStarted {
      assert "" + text == text;
      assert (m.content + [ThinkingBlock("")])[|m.content| := ThinkingBlock(text)] == m.content + [ThinkingBlock(text)];
    }
  }

  lemma {:induction false} AssembleContent(s: State, m: ClaudeMessage, text: string)
    requires text != "" && s.nextBlockIndex == |m.content|
    ensures var o := AddContent(s, text);
            var m' := AssembleAll(m, o.events);
            && m' == m.(content := m'.content)
            && (!s.textBlockStarted ==> m'.content == m.content + [TextBlock(text)])
            && (s.textBlockStarted && 0 <= s.textBlockIndex < |m.content| ==>
                  m'.content == m.content[s.textBlockIndex := Extend(m.content[s.textBlockIndex], TextDelta(text))])
  {
    var a := StopThinking(s);
    StopThinkingSilent(s, m);
    var b := OpenText(a.state);
    var e := BlockDelta(b.state.textBlockIndex, TextDelta(text));
    AssembleConcat(m, a.events, b.events);
    AssembleConcat(m, a.events + b.events, [e]);
    AssembleOne(m, BlockStart(a.state.nextBlockIndex, Text));
    AssembleOne(AssembleAll(m, b.events), e);
    if !s.textBlockStarted {
      assert "" + text == text;
      assert (m.content + [TextBlock("")])[|m.content| := TextBlock(text)] == m.content + [TextBlock(text)];
    }
  }

  lemma {:induction false} AppendInverts(bs: seq<Block>, b: Block)
    requires bs != [] && Rank(bs[|bs| - 1]) > Rank(b)
    ensures Inverted(bs + [b])
  {
    var all, n := bs + [b], |bs|;
    assert Rank(all[n - 1]) > Rank(all[n]);
  }

  lemma {:induction false} LastBlock(g: Merged)
    requires g.content != "" || g.tools != []
    ensures var all := Lead(g) + OpenTools(g.tools);
            all != [] && Rank(all[|all| - 1]) == if g.tools == [] then 1 else 2
  {
  }

  lemma {:induction false} NoToolsMatch(calls: ToolMap, buffers: BufferMap, base: int, base': int)
    requires ToolsMatch(calls, buffers, base, [])
    ensures ToolsMatch(calls, buffers, base', [])
  {
  }

  lemma {:induction false} MatchReasoning(s: State, m: ClaudeMessage, g: Merged, text: string)
    requires Matches(s, m, g) && text != ""
    ensures var o := AddReasoning(s, text);
            var m' := AssembleAll(m, o.events);
            if g.content == "" && g.tools == [] then Matches(o.state, m', g.(reasoning := g.reasoning + text))
            else Inverted(m'.content)
  {
    hide ToolsMatch;
    AssembleReasoning(s, m, text);
    var m' := AssembleAll(m, AddReasoning(s, text).events);
    if g.content == "" && g.tools == [] {
      assert OpenTools(g.tools) == [];
      if g.reasoning == "" {
        assert "" + text == text;
      }
      assert m'.content == [ThinkingBlock(g.reasoning + text)];
      NoToolsMatch(s.toolCalls, s.toolArgBuffers, |Lead(g)|, |Lead(g.(reasoning := g.reasoning + text))|);
    } else {
      LastBlock(g);
      AppendInverts(m.content, ThinkingBlock(text));
    }
  }

  lemma {:induction false} ContentState(s: State, text: string)
    requires text != ""
    ensures var s' := AddContent(s, text).state;
            && s'.toolCalls == s.toolCalls && s'.toolArgBuffers == s.toolArgBuffers && s'.messageId == s.messageId && s'.model == s.model
            && !s'.thinkingBlockStarted && s'.textBlockStarted
            && (if s.textBlockStarted
                then s'.nextBlockIndex == s.nextBlockIndex && s'.textBlockIndex == s.textBlockIndex && s'.textBlockClosed == s.textBlockClosed
                else s'.nextBlockIndex == s.nextBlockIndex + 1 && s'.textBlockIndex == s.nextBlockIndex && !s'.textBlockClosed)
  {
  }

  lemma {:induction false} MatchContent(s: State, m: ClaudeMessage, g: Merged, text: string)
    requires Matches(s, m, g) && text != ""
    ensures var o := AddContent(s, text);
            var m' := AssembleAll(m, o.events);
            if g.tools == [] then Matches(o.state, m', g.(content := g.content + text))
            else Inverted(m'.content)
  {
    hide ToolsMatch, AssembleAll, AddContent;
    AssembleContent(s, m, text);
    ContentState(s, text);
    var m' := AssembleAll(m, AddContent(s, text).events);
    if g.tools == [] {
      assert OpenTools(g.tools) == [];
      if g.content == "" {
        assert "" + text == text;
      }
      assert m'.content == ThinkingPart(g.reasoning) + [TextBlock(g.content + text)];
      NoToolsMatch(s.toolCalls, s.toolArgBuffers, |Lead(g)|, |Lead(g.(content := g.content + text))|);
    } else {
      LastBlock(g);
      AppendInverts(m.content, TextBlock(text));
    }
  }

  // ----- tool fragments -----

  function Indices(tools: seq<ToolCallFragment>): seq<int> {
    seq(|tools|, j requires 0 <= j < |tools| => FragmentIndex(tools[j]))
  }

  lemma {:induction false} IndicesOfMerge(tools: seq<ToolCallFragment>, tc: ToolCallFragment)
    ensures Indices(MergeFragment(tools, tc)) == Indices(tools) + if tc.id == "" then [] else [FragmentIndex(tc)]
  {
  }

  lemma {:induction false} IndicesOfMerges(tools: seq<ToolCallFragment>, tcs: seq<ToolCallFragment>)
    ensures Indices(MergeFragments(tools, tcs)) == Indices(tools) + AnnouncedIn(tcs)
  {
    if tcs == [] {
      assert Indices(tools) + [] == Indices(tools);
    } else {
      var init, tc := tcs[..|tcs| - 1], tcs[|tcs| - 1];
      IndicesOfMerges(tools, init);
      IndicesOfMerge(MergeFragments(tools, init), tc);
    }
  }

  lemma {:induction false} AssembleAnnounce(s: State, m: ClaudeMessage, tc: ToolCallFragment)
    requires tc.id != ""
    ensures AssembleAll(m, AddFragment(s, tc).events) == m.(content := m.content + [ToolUseBlock(tc.id, ToolName(tc), "")])
  {
    var a := StopBoth(s);
    StopBothSilent(s, m);
    var e := BlockStart(a.state.nextBlockIndex, ToolUse(tc.id, ToolName(tc)));
    AssembleConcat(m, a.events, [e]);
    AssembleOne(m, e);
  }

  lemma {:induction false} AnnouncedTool(s: State, tc: ToolCallFragment)
    requires tc.id != ""
    ensures var s', idx := AddFragment(s, tc).state, FragmentIndex(tc);
            && s'.toolCalls == s.toolCalls[idx := ToolCallState(tc.id, ToolName(tc), s.nextBlockIndex)]
            && (idx in s'.toolArgBuffers || s'.toolArgBuffers == s.toolArgBuffers)
            && (forall x :: x in s'.toolArgBuffers ==> x in s.toolArgBuffers || x == idx)
            && (forall x :: Lookup(s'.toolArgBuffers, x) == Lookup(s.toolArgBuffers, x) + if x == idx then Arguments(tc) else "")
            && s'.nextBlockIndex == s.nextBlockIndex + 1
            && !s'.thinkingBlockStarted && (s'.textBlockStarted ==> s.textBlockStarted && s.textBlockClosed)
            && s'.messageId == s.messageId && s'.model == s.model
  {
    assert forall t: string :: t + "" == t;
  }

  lemma {:induction false} MatchAnnounce(s: State, m: ClaudeMessage, g: Merged, tc: ToolCallFragment)
    requires Matches(s, m, g) && tc.id != "" && FragmentIndex(tc) !in Indices(g.tools)
    ensures var o := AddFragment(s, tc);
            Matches(o.state, AssembleAll(m, o.events), g.(tools := MergeFragment(g.tools, tc)))
  {
    hide AddFragment, ToolsMatch, AssembleAll, Lookup, Indices;
    AssembleAnnounce(s, m, tc);
    AnnouncedTool(s, tc);
    var s' := AddFragment(s, tc).state;
    AnnouncedToolsMatch(s.toolCalls, s.toolArgBuffers, s'.toolCalls, s'.toolArgBuffers, |Lead(g)|, g.tools, tc);
    assert OpenTools(g.tools + [tc]) == OpenTools(g.tools) + [ToolUseBlock(tc.id, ToolName(tc), "")];
    assert Lead(g) + OpenTools(g.tools) + [ToolUseBlock(tc.id, ToolName(tc), "")] == Lead(g) + OpenTools(g.tools + [tc]);
  }

  lemma {:induction false} AnnouncedToolsMatch(calls: ToolMap, buffers: BufferMap, calls': ToolMap, buffers': BufferMap, base: int,
                            tools: seq<ToolCallFragment>, tc: ToolCallFragment)
    requires ToolsMatch(calls, buffers, base, tools) && FragmentIndex(tc) !in Indices(tools)
    requires calls' == calls[FragmentIndex(tc) := ToolCallState(tc.id, ToolName(tc), base + |tools|)]
    requires forall x :: x in buffers' ==> x in buffers || x == FragmentIndex(tc)
    requires forall x :: Lookup(buffers', x) == Lookup(buffers, x) + if x == FragmentIndex(tc) then Arguments(tc) else ""
    ensures ToolsMatch(calls', buffers', base, tools + [tc])
  {
    var idx, all := FragmentIndex(tc), tools + [tc];
    assert Indices(all) == Indices(tools) + [idx];
    NoDuplicatesSnoc(Indices(tools), idx);
    assert "" + Arguments(tc) == Arguments(tc);
    forall j | 0 <= j < |all| ensures ToolMatches(calls', buffers', base + j, all[j]) {
      if j < |tools| {
        assert ToolMatches(calls, buffers, base + j, tools[j]);
        assert Indices(tools)[j] != idx;
        assert Arguments(tools[j]) + "" == Arguments(tools[j]);
      }
    }
  }

  lemma {:induction false} FollowedTool(s: State, tc: ToolCallFragment)
    requires tc.id == ""
    ensures var o, idx := AddFragment(s, tc), FragmentIndex(tc);
            && o.events == [] && o.state == s.(toolArgBuffers := o.state.toolArgBuffers)
            && (forall x :: x in o.state.toolArgBuffers ==> x in s.toolArgBuffers || x == idx)
            && (forall x :: Lookup(o.state.toolArgBuffers, x)
                            == Lookup(s.toolArgBuffers, x) + if x == idx then Arguments(tc) else "")
  {
    assert forall t: string :: t + "" == t;
  }

  lemma {:induction false} MatchFollow(s: State, m: ClaudeMessage, g: Merged, tc: ToolCallFragment)
    requires Matches(s, m, g) && tc.id == "" && FragmentIndex(tc) in Indices(g.tools)
    ensures var o := AddFragment(s, tc);
            Matches(o.state, AssembleAll(m, o.events), g.(tools := MergeFragment(g.tools, tc)))
  {
    hide AddFragment, ToolsMatch, MergeFragment, OpenTools, Indices, Lookup, AssembleAll;
    FollowedTool(s, tc);
    NothingAssembled(m);
    var s' := AddFragment(s, tc).state;
    FollowedBlocks(g.tools, tc);
    FollowToolsMatch(s.toolCalls, s.toolArgBuffers, s'.toolArgBuffers, |Lead(g)|, g.tools, tc);
  }

  lemma {:induction false} NothingAssembled(m: ClaudeMessage)
    ensures AssembleAll(m, []) == m
  {
  }

  /** Arguments change neither the blocks that are open nor their number. */
  lemma {:induction false} FollowedBlocks(tools: seq<ToolCallFragment>, tc: ToolCallFragment)
    requires tc.id == ""
    ensures OpenTools(MergeFragment(tools, tc)) == OpenTools(tools) && |MergeFragment(tools, tc)| == |tools|
  {
  }

  lemma {:induction false} FollowToolsMatch(calls: ToolMap, buffers: BufferMap, buffers': BufferMap, base: int,
                         tools: seq<ToolCallFragment>, tc: ToolCallFragment)
    requires ToolsMatch(calls, buffers, base, tools) && tc.id == "" && FragmentIndex(tc) in Indices(tools)
    requires forall x :: x in buffers' ==> x in buffers || x == FragmentIndex(tc)
    requires forall x :: Lookup(buffers', x) == Lookup(buffers, x) + if x == FragmentIndex(tc) then Arguments(tc) else ""
    ensures ToolsMatch(calls, buffers', base, MergeFragment(tools, tc))
  {
    var all := MergeFragment(tools, tc);
    assert Indices(all) == Indices(tools);
    forall j | 0 <= j < |all| ensures ToolMatches(calls, buffers', base + j, all[j]) {
      assert ToolMatches(calls, buffers, base + j, tools[j]);
      if FragmentIndex(tools[j]) == FragmentIndex(tc) {
        assert Arguments(all[j]) == Arguments(tools[j]) + Arguments(tc);
      } else {
        assert all[j] == tools[j];
        assert Arguments(tools[j]) + "" == Arguments(tools[j]);
      }
    }
  }

  lemma {:induction false} MatchFragments(s: State, m: ClaudeMessage, g: Merged, tcs: seq<ToolCallFragment>)
    requires Matches(s, m, g) && FragmentsFollow(Indices(g.tools), tcs)
    requires NoDuplicates(Indices(g.tools) + AnnouncedIn(tcs))
    ensures var o := AddFragments(s, tcs);
            Matches(o.state, AssembleAll(m, o.events), g.(tools := MergeFragments(g.tools, tcs)))
  {
    hide Matches, AddFragment, MergeFragment;
    if tcs == [] {
      return;
    }
    var init, tc := tcs[..|tcs| - 1], tcs[|tcs| - 1];
    var ann := Indices(g.tools) + AnnouncedIn(init);
    IndicesOfMerges(g.tools, init);
    if tc.id != "" {
      assert Indices(g.tools) + AnnouncedIn(tcs) == ann + [FragmentIndex(tc)];
      NoDuplicatesSnoc(ann, FragmentIndex(tc));
    } else {
      assert Indices(g.tools) + AnnouncedIn(tcs) == ann;
    }
    MatchFragments(s, m, g, init);
    var before := AddFragments(s, init);
    var m1, g1 := AssembleAll(m, before.events), g.(tools := MergeFragments(g.tools, init));
    if tc.id != "" {
      MatchAnnounce(before.state, m1, g1, tc);
    } else {
      MatchFollow(before.state, m1, g1, tc);
    }
    AssembleConcat(m, before.events, AddFragment(before.state, tc).events);
  }

  // ----- a whole delta -----

  predicate OrderedAfter(g: Merged, d: Delta) {
    && (ReasoningText(d) != "" ==> g.content == "" && g.tools == [])
    && (d.content != "" ==> g.tools == [])
  }

  function MergeDelta(g: Merged, d: Delta): Merged {
    Merged(g.reasoning + ReasoningText(d), g.content + d.content, MergeFragments(g.tools, d.toolCalls), g.finish)
  }

  lemma {:induction false} MatchDelta(s: State, m: ClaudeMessage, g: Merged, d: Delta)
    requires Matches(s, m, g) && FragmentsFollow(Indices(g.tools), d.toolCalls)
    requires NoDuplicates(Indices(g.tools) + AnnouncedIn(d.toolCalls))
    ensures var o := AddDelta(s, d);
            var m' := AssembleAll(m, o.events);
            if OrderedAfter(g, d) then Matches(o.state, m', MergeDelta(g, d)) else Inverted(m'.content)
  {
    var a := AddReasoning(s, ReasoningText(d));
    var m1 := AssembleAll(m, a.events);
    var b := AddContent(a.state, d.content);
    var m2 := AssembleAll(m1, b.events);
    var t := AddFragments(b.state, d.toolCalls);
    if ReasoningText(d) != "" {
      MatchReasoning(s, m, g, ReasoningText(d));
    } else {
      assert g.reasoning + "" == g.reasoning;
    }
    var g1 := g.(reasoning := g.reasoning + ReasoningText(d));
    AssembleConcat(m, a.events, b.events);
    AssembleConcat(m, a.events + b.events, t.events);
    if ReasoningText(d) != "" && !(g.content == "" && g.tools == []) {
      InvertedForGood(m1, b.events);
      InvertedForGood(m2, t.events);
      return;
    }
    hide Matches, AddReasoning, Inverted, AddFragments;
    if d.content != "" {
      MatchContent(a.state, m1, g1, d.content);
    } else {
      assert g.content + "" == g.content;
    }
    if d.content != "" && g.tools != [] {
      InvertedForGood(m2, t.events);
      return;
    }
    var g2 := g1.(content := g1.content + d.content);
    MatchFragments(b.state, m2, g2, d.toolCalls);
  }

  // ----- the finishing chunk -----

  /** The tool blocks once the tools listed in `done` have been flushed. */
  function FlushedTools(tools: seq<ToolCallFragment>, done: seq<int>, san: Sanitizer): seq<Block> {
    seq(|tools|, j requires 0 <= j < |tools| =>
      ToolUseBlock(tools[j].id, ToolName(tools[j]),
                   if FragmentIndex(tools[j]) in done then san(ToolName(tools[j]), Arguments(tools[j])) else ""))
  }

  lemma {:induction false} AssembleFlush(s: State, m: ClaudeMessage, lead: seq<Block>, tools: seq<ToolCallFragment>,
                                         order: seq<int>, san: Sanitizer)
    requires ToolsMatch(s.toolCalls, s.toolArgBuffers, |lead|, tools)
    requires m.content == lead + OpenTools(tools)
    requires NoDuplicates(order) && forall x :: x in order ==> x in s.toolCalls
    ensures AssembleAll(m, FlushTools(s, order, san)) == m.(content := lead + FlushedTools(tools, order, san))
  {
    if order == [] {
      assert OpenTools(tools) == FlushedTools(tools, order, san);
      return;
    }
    var init, idx := order[..|order| - 1], order[|order| - 1];
    assert order == init + [idx];
    AssembleFlush(s, m, lead, tools, init, san);
    var m1 := m.(content := lead + FlushedTools(tools, init, san));
    AssembleConcat(m, FlushTools(s, init, san), FlushTool(s, idx, san));
    AssembleFlushOne(s, m1, lead, tools, init, idx, san);
  }

  lemma {:induction false} FlushedSnoc(tools: seq<ToolCallFragment>, done: seq<int>, j: nat, san: Sanitizer)
    requires j < |tools| && NoDuplicates(Indices(tools)) && Indices(tools)[j] !in done
    ensures FlushedTools(tools, done, san)[j] == ToolUseBlock(tools[j].id, ToolName(tools[j]), "")
    ensures FlushedTools(tools, done + [Indices(tools)[j]], san)
         == FlushedTools(tools, done, san)[j := ToolUseBlock(tools[j].id, ToolName(tools[j]), san(ToolName(tools[j]), Arguments(tools[j])))]
  {
    var a, b := FlushedTools(tools, done + [Indices(tools)[j]], san), FlushedTools(tools, done, san);
    forall i | 0 <= i < |tools| && i != j ensures a[i] == b[i] {
      assert Indices(tools)[i] != Indices(tools)[j];
    }
  }

  lemma {:induction false} UpdateTail(lead: seq<Block>, tail: seq<Block>, j: nat, b: Block)
    requires j < |tail|
    ensures (lead + tail)[|lead| + j := b] == lead + tail[j := b]
  {
  }

  lemma {:induction false} ToolAt(s: State, base: int, tools: seq<ToolCallFragment>, idx: int, san: Sanitizer) returns (j: nat)
    requires ToolsMatch(s.toolCalls, s.toolArgBuffers, base, tools) && idx in s.toolCalls
    ensures j < |tools| && Indices(tools)[j] == idx && NoDuplicates(Indices(tools))
    ensures FlushTool(s, idx, san)
         == [BlockDelta(base + j, InputJsonDelta(san(ToolName(tools[j]), Arguments(tools[j]))))] + [BlockStop(base + j)]
  {
    j :| 0 <= j < |tools| && Indices(tools)[j] == idx;
    assert ToolMatches(s.toolCalls, s.toolArgBuffers, base + j, tools[j]);
  }

  lemma {:induction false} AssembleFlushOne(s: State, m: ClaudeMessage, lead: seq<Block>, tools: seq<ToolCallFragment>,
                         done: seq<int>, idx: int, san: Sanitizer)
    requires ToolsMatch(s.toolCalls, s.toolArgBuffers, |lead|, tools)
    requires m.content == lead + FlushedTools(tools, done, san)
    requires idx !in done && idx in s.toolCalls
    ensures AssembleAll(m, FlushTool(s, idx, san)) == m.(content := lead + FlushedTools(tools, done + [idx], san))
  {
    hide FlushTool, ToolsMatch;
    var j := ToolAt(s, |lead|, tools, idx, san);
    FlushedSnoc(tools, done, j, san);
    var input := san(ToolName(tools[j]), Arguments(tools[j]));
    assert "" + input == input;
    UpdateTail(lead, FlushedTools(tools, done, san), j, ToolUseBlock(tools[j].id, ToolName(tools[j]), input));
    AssembleTwo(m, BlockDelta(|lead| + j, InputJsonDelta(input)), BlockStop(|lead| + j));
  }

  lemma {:induction false} AssembleTwo(m: ClaudeMessage, e1: Event, e2: Event)
    ensures AssembleAll(m, [e1] + [e2]) == Assemble(Assemble(m, e1), e2)
  {
    AssembleConcat(m, [e1], [e2]);
    AssembleOne(m, e1);
    AssembleOne(Assemble(m, e1), e2);
  }

  lemma {:induction false} AllFlushed(s: State, base: int, tools: seq<ToolCallFragment>, order: seq<int>, san: Sanitizer)
    requires ToolsMatch(s.toolCalls, s.toolArgBuffers, base, tools) && Enumerates(order, s.toolCalls.Keys)
    ensures FlushedTools(tools, order, san) == FlushedTools(tools, Indices(tools), san)
    ensures NoDuplicates(order) && forall x :: x in order ==> x in s.toolCalls
  {
    assert forall j :: 0 <= j < |tools| ==> Indices(tools)[j] in order;
    assert forall j :: 0 <= j < |tools| ==> Indices(tools)[j] in Indices(tools);
  }

  lemma {:induction false} AssembleFinish(s: State, m: ClaudeMessage, g: Merged, finish: string, order: seq<int>, san: Sanitizer)
    requires Matches(s, m, g) && Enumerates(order, s.toolCalls.Keys)
    ensures AssembleAll(m, Finish(s, Some(finish), order, san).events)
         == m.(content := Lead(g) + FlushedTools(g.tools, Indices(g.tools), san), stopReason := ClaudeStopReason(finish))
  {
    hide FlushTools, FlushedTools, AssembleAll, ToolsMatch;
    var a := StopBoth(s);
    StopBothSilent(s, m);
    var flushed := FlushTools(a.state, order, san);
    AllFlushed(s, |Lead(g)|, g.tools, order, san);
    AssembleFlush(a.state, m, Lead(g), g.tools, order, san);
    var end := Closing(s, finish);
    AssembleConcat(m, a.events, flushed);
    AssembleConcat(m, a.events + flushed, end);
    assert end == [end[0]] + [end[1]];
    AssembleTwo(AssembleAll(m, flushed), end[0], end[1]);
  }

  /** The flushed blocks are the batch ones unless some tool came without arguments. */
  lemma {:induction false} FlushedIsBatch(g: Merged, san: Sanitizer)
    requires forall n :: san(n, "") == ""
    ensures Lead(g) + FlushedTools(g.tools, Indices(g.tools), san) == Lead(g) + ToolParts(g.tools, san)
            <==> forall tc :: tc in g.tools ==> Arguments(tc) != ""
  {
    var a, b := FlushedTools(g.tools, Indices(g.tools), san), ToolParts(g.tools, san);
    forall j | 0 <= j < |g.tools| ensures a[j] == b[j] <==> Arguments(g.tools[j]) != "" {
      assert Indices(g.tools)[j] in Indices(g.tools);
    }
    if Lead(g) + a == Lead(g) + b {
      assert a == (Lead(g) + a)[|Lead(g)|..] == b;
      forall tc | tc in g.tools ensures Arguments(tc) != "" {
        var j :| 0 <= j < |g.tools| && g.tools[j] == tc;
        assert a[j] == b[j];
      }
    }
    if forall tc :: tc in g.tools ==> Arguments(tc) != "" {
      assert a == b;
    }
  }

  // ----- whole runs -----

  lemma {:induction false} IndicesSoFar(cs: seq<Chunk>)
    ensures Indices(MergeAll(cs).tools) == AnnouncedAll(cs)
  {
    if cs != [] {
      var init, c := cs[..|cs| - 1], cs[|cs| - 1];
      IndicesSoFar(init);
      if c.choices != [] {
        IndicesOfMerges(MergeAll(init).tools, c.choices[0].delta.toolCalls);
      }
    }
  }

  lemma {:induction false} ContentSoFar(cs: seq<Chunk>)
    ensures MergeAll(cs).content == "" <==> forall i :: 0 <= i < |cs| ==> ContentIn(cs[i]) == ""
  {
    if cs != [] {
      var init := cs[..|cs| - 1];
      ContentSoFar(init);
      assert MergeAll(cs).content == MergeAll(init).content + ContentIn(cs[|cs| - 1]);
      hide ContentIn, MergeAll;
      assert forall i :: 0 <= i < |init| ==> init[i] == cs[i];
    }
  }

  lemma {:induction false} AnnouncedSoFar(cs: seq<Chunk>)
    ensures AnnouncedAll(cs) == [] <==> forall i :: 0 <= i < |cs| ==> Announced(cs[i]) == []
  {
    if cs != [] {
      hide Announced;
      var init := cs[..|cs| - 1];
      AnnouncedSoFar(init);
      assert AnnouncedAll(cs) == AnnouncedAll(init) + Announced(cs[|cs| - 1]);
      assert forall i :: 0 <= i < |init| ==> init[i] == cs[i];
    }
  }

  lemma {:induction false} OrderedPairs(cs: seq<Chunk>)
    requires cs != []
    ensures var init, c := cs[..|cs| - 1], cs[|cs| - 1];
            Ordered(cs) <==> Ordered(init) && forall i :: 0 <= i < |init| ==> OrderedPair(init[i], c)
  {
    hide OrderedPair;
    var init := cs[..|cs| - 1];
    assert forall i :: 0 <= i < |init| ==> init[i] == cs[i];
    if Ordered(cs) {
      forall i, j | 0 <= i < j < |init| ensures OrderedPair(init[i], init[j]) {
        assert OrderedPair(cs[i], cs[j]);
      }
    }
    if Ordered(init) && forall i :: 0 <= i < |init| ==> OrderedPair(init[i], cs[|init|]) {
      forall i, j | 0 <= i < j < |cs| ensures OrderedPair(cs[i], cs[j]) {
        if j < |init| {
          assert OrderedPair(init[i], init[j]);
        }
      }
    }
  }

  lemma {:induction false} OrderedSnoc(cs: seq<Chunk>)
    requires cs != []
    ensures var init, c := cs[..|cs| - 1], cs[|cs| - 1];
            Ordered(cs) <==> Ordered(init) && (c.choices == [] || OrderedAfter(MergeAll(init), c.choices[0].delta))
  {
    var init, c := cs[..|cs| - 1], cs[|cs| - 1];
    IndicesSoFar(init);
    ContentSoFar(init);
    AnnouncedSoFar(init);
    assert |Indices(MergeAll(init).tools)| == |MergeAll(init).tools|;
    OrderedPairs(cs);
    hide AnnouncedAll, MergeAll, Indices, Ordered, Announced;
    if forall i :: 0 <= i < |init| ==> OrderedPair(init[i], c) {
    }
  }

  lemma {:induction false} FirstChoiceSnoc(ts: seq<Tick>)
    requires ts != []
    ensures var init := ts[..|ts| - 1];
            if FirstChoice(init) < |init| then FirstChoice(ts) == FirstChoice(init)
            else FirstChoice(ts) == if ts[|ts| - 1].chunk.choices != [] then |init| else |ts|
  {
    if ts[0].chunk.choices == [] && |ts| > 1 {
      assert ts[..|ts| - 1][1..] == ts[1..][..|ts| - 2];
      FirstChoiceSnoc(ts[1..]);
    }
  }

  ghost predicate NamedBy(s: State, t: Tick) {
    s.messageId == CleanMessageId(t.chunk.id, t.newId) && s.model == ModelName(t.chunk.model)
  }

  /** What holds before the finishing chunk. */
  ghost predicate RunMatches(ts: seq<Tick>, run: Session) {
    var cs, k, m := Chunks(ts), FirstChoice(ts), Received(run.events);
    if run.state.None? then k == |ts| && m == NOTHING && MergeAll(cs) == NOTHING_MERGED && Ordered(cs)
    else
      && k < |ts| && NamedBy(run.state.value, ts[k]) && run.state.value.messageStartSent
      && if Ordered(cs) then Matches(run.state.value, m, MergeAll(cs)) else Inverted(m.content)
  }

  lemma {:induction false} MatchStart(s: State, m: ClaudeMessage, g: Merged, c: Chunk)
    requires if s.messageStartSent then Matches(s, m, g)
             else m == NOTHING && g == NOTHING_MERGED && exists now, id :: s == NewState(now, c, id)
    ensures var o := StartMessage(TakeUsage(s, c)); Matches(o.state, AssembleAll(m, o.events), g)
  {
    if !s.messageStartSent {
      AssembleOne(m, MessageStart(s.messageId, s.model));
      assert Lead(g) + OpenTools(g.tools) == [];
    }
  }

  lemma {:induction false} ConformantSnoc(cs: seq<Chunk>)
    requires cs != [] && Conformant(cs) && FirstFinish(cs[..|cs| - 1]) == |cs| - 1
    ensures Conformant(cs[..|cs| - 1])
    ensures cs[|cs| - 1].choices != [] ==>
              FragmentsFollow(AnnouncedAll(cs[..|cs| - 1]), cs[|cs| - 1].choices[0].delta.toolCalls)
  {
    var init := cs[..|cs| - 1];
    forall k | 0 <= k < |init| && init[k].choices != []
      ensures FragmentsFollow(AnnouncedAll(init[..k]), init[k].choices[0].delta.toolCalls)
    {
      assert init[..k] == cs[..k] && init[k] == cs[k];
    }
  }

  lemma {:induction false} NoDuplicatesPrefix(a: seq<int>, b: seq<int>)
    requires NoDuplicates(a + b)
    ensures NoDuplicates(a)
  {
    assert forall i :: 0 <= i < |a| ==> (a + b)[i] == a[i];
  }

  /** One more chunk, up to its finish reason. */
  lemma {:induction false} MatchBeforeFinish(s: State, m: ClaudeMessage, g: Merged, c: Chunk)
    requires if s.messageStartSent then Matches(s, m, g)
             else m == NOTHING && g == NOTHING_MERGED && exists now, id :: s == NewState(now, c, id)
    requires c.choices != [] ==>
               && FragmentsFollow(Indices(g.tools), c.choices[0].delta.toolCalls)
               && NoDuplicates(Indices(g.tools) + Announced(c))
    ensures var o := BeforeFinish(s, c);
            var m' := AssembleAll(m, o.events);
            if c.choices == [] then Matches(o.state, m', g)
            else if OrderedAfter(g, c.choices[0].delta) then Matches(o.state, m', MergeDelta(g, c.choices[0].delta))
            else Inverted(m'.content)
  {
    MatchStart(s, m, g, c);
    hide Matches, StartMessage, AddDelta, TakeUsage;
    var started := StartMessage(TakeUsage(s, c));
    if c.choices != [] {
      var m1 := AssembleAll(m, started.events);
      MatchDelta(started.state, m1, g, c.choices[0].delta);
      AssembleConcat(m, started.events, AddDelta(started.state, c.choices[0].delta).events);
    }
  }

  /** The conditions, for chunks that have not finished the message yet. */
  ghost predicate SoFar(cs: seq<Chunk>) {
    Conformant(cs) && FirstFinish(cs) == |cs| && NoDuplicates(AnnouncedAll(cs))
  }

  lemma {:induction false} SoFarSnoc(cs: seq<Chunk>)
    requires cs != [] && SoFar(cs)
    ensures var init, c := cs[..|cs| - 1], cs[|cs| - 1];
            && SoFar(init) && !Finishes(c)
            && NoDuplicates(AnnouncedAll(init) + Announced(c))
            && (c.choices != [] ==> FragmentsFollow(AnnouncedAll(init), c.choices[0].delta.toolCalls))
  {
    var init, c := cs[..|cs| - 1], cs[|cs| - 1];
    hide Announced, FragmentsFollow, Conformant;
    ConformantSnoc(cs);
    assert AnnouncedAll(cs) == AnnouncedAll(init) + Announced(c);
    NoDuplicatesPrefix(AnnouncedAll(init), Announced(c));
  }

  lemma {:induction false} RunSoFar(ts: seq<Tick>, san: Sanitizer)
    requires SoFar(Chunks(ts))
    ensures RunMatches(ts, Run(ts, san))
  {
    hide Advance, Announced, FragmentsFollow, SoFar, AnnouncedAll, Finishes, FirstFinish, RunMatches, Run;
    NothingRun(san);
    if ts != [] {
      var before, t := ts[..|ts| - 1], ts[|ts| - 1];
      ChunksSnoc(ts);
      SoFarSnoc(Chunks(ts));
      RunSoFar(before, san);
      RunStep(before, t, Run(before, san), san);
      RunSnoc(ts, san);
      assert ts == before + [t];
    }
  }

  lemma {:induction false} NothingRun(san: Sanitizer)
    ensures RunMatches([], Run([], san))
  {
  }

  lemma {:induction false} RunSnoc(ts: seq<Tick>, san: Sanitizer)
    requires ts != []
    ensures var before := Run(ts[..|ts| - 1], san);
            var last := Advance(before.state, ts[|ts| - 1], san);
            Run(ts, san) == Session(last.state, before.events + last.events)
  {
    hide Advance;
  }

  /** A chunk that does not finish extends what the client has. */
  lemma {:induction false} RunStep(before: seq<Tick>, t: Tick, run: Session, san: Sanitizer)
    requires RunMatches(before, run) && !Finishes(t.chunk)
    requires t.chunk.choices != [] ==> FragmentsFollow(AnnouncedAll(Chunks(before)), t.chunk.choices[0].delta.toolCalls)
    requires NoDuplicates(AnnouncedAll(Chunks(before)) + Announced(t.chunk))
    ensures var last := Advance(run.state, t, san);
            RunMatches(before + [t], Session(last.state, run.events + last.events))
  {
    hide Matches, Step, BeforeFinish, FragmentsFollow, Ordered, AnnouncedAll, Inverted, FirstChoice, AssembleAll, OrderedAfter,
      MergeChunk, MergeDelta, Finishes, Indices;
    var ts, cs0 := before + [t], Chunks(before);
    assert ts[..|ts| - 1] == before;
    ChunksSnoc(ts);
    FirstChoiceSnoc(ts);
    OrderedSnoc(Chunks(ts));
    IndicesSoFar(cs0);
    MergeWithoutFinish(MergeAll(cs0), t.chunk);
    var last, m, g := Advance(run.state, t, san), Received(run.events), MergeAll(cs0);
    AssembleConcat(NOTHING, run.events, last.events);
    if run.state.None? && t.chunk.choices == [] {
      assert run.events + [] == run.events;
      return;
    }
    var s := run.state.GetOr(NewState(t.now, t.chunk, t.newId));
    StepKeepsHeader(s, t.chunk, t.order, san);
    StepWithoutFinish(s, t.chunk, t.order, san);
    if Ordered(cs0) {
      assert run.state.None? ==> s == NewState(t.now, t.chunk, t.newId);
      MatchBeforeFinish(s, m, g, t.chunk);
    } else {
      InvertedForGood(m, last.events);
    }
  }

  lemma {:induction false} MergeWithoutFinish(g: Merged, c: Chunk)
    requires !Finishes(c)
    ensures MergeChunk(g, c) == if c.choices == [] then g else MergeDelta(g, c.choices[0].delta)
  {
  }

  lemma {:induction false} StepWithoutFinish(s: State, c: Chunk, order: seq<int>, san: Sanitizer)
    requires !Finishes(c)
    ensures Step(s, c, order, san) == BeforeFinish(s, c)
  {
    assert BeforeFinish(s, c).events + [] == BeforeFinish(s, c).events;
  }

  // ----- the theorem -----

  /** The batch translation of the response the run's deltas are pieces of. */
  function BatchOf(ts: seq<Tick>, san: Sanitizer): Result<ClaudeMessage> {
    if FirstChoice(ts) == |ts| then Err("no choices in OpenAI response") else
    var first := ts[FirstChoice(ts)];
    TranslateResponse(WholeResponse(first.chunk, MergeAll(Chunks(ts))), first.newId, san)
  }

  /** The client's message is the batch one iff the deltas came in order and no
      tool call came without arguments. */
  ghost predicate Refines(ts: seq<Tick>, received: ClaudeMessage, san: Sanitizer) {
    && BatchOf(ts, san).Ok?
    && (received == BatchOf(ts, san).value <==> Ordered(Chunks(ts)) && ArgumentsPresent(Chunks(ts)))
  }

  lemma {:induction false} WholeContent(first: Chunk, g: Merged, newId: string, san: Sanitizer)
    ensures TranslateResponse(WholeResponse(first, g), newId, san)
         == Ok(ClaudeMessage(CleanMessageId(first.id, newId), ModelName(first.model), Lead(g) + ToolParts(g.tools, san),
                             if g.finish.None? then "end_turn" else ClaudeStopReason(g.finish.value)))
  {
  }

  function FinishedMessage(s: State, g: Merged, finish: string, san: Sanitizer): ClaudeMessage {
    ClaudeMessage(s.messageId, s.model, Lead(g) + FlushedTools(g.tools, Indices(g.tools), san), ClaudeStopReason(finish))
  }

  /** What the client has after the finishing chunk. */
  lemma {:induction false} AssembleLastStep(s: State, m: ClaudeMessage, g: Merged, c: Chunk, order: seq<int>, san: Sanitizer)
    requires if s.messageStartSent then Matches(s, m, g)
             else m == NOTHING && g == NOTHING_MERGED && exists now, id :: s == NewState(now, c, id)
    requires Finishes(c) && Visits(s, c, order)
    requires FragmentsFollow(Indices(g.tools), c.choices[0].delta.toolCalls)
    requires NoDuplicates(Indices(g.tools) + Announced(c))
    ensures var o, d := Step(s, c, order, san), c.choices[0].delta;
            var m' := AssembleAll(m, o.events);
            if OrderedAfter(g, d) then m' == FinishedMessage(o.state, MergeChunk(g, c), c.choices[0].finishReason.value, san)
            else Inverted(m'.content)
  {
    var body, d, finish := BeforeFinish(s, c), c.choices[0].delta, c.choices[0].finishReason;
    var end := Finish(body.state, finish, order, san);
    assert end.state.messageId == body.state.messageId && end.state.model == body.state.model;
    MatchBeforeFinish(s, m, g, c);
    var m1 := AssembleAll(m, body.events);
    AssembleConcat(m, body.events, end.events);
    hide BeforeFinish, Finish, FragmentsFollow, FlushedTools;
    if OrderedAfter(g, d) {
      AssembleFinish(body.state, m1, MergeDelta(g, d), finish.value, order, san);
    } else {
      hide Inverted;
      InvertedForGood(m1, end.events);
    }
  }

  lemma {:induction false} FinishedIsBatch(s: State, first: Tick, g: Merged, san: Sanitizer)
    requires NamedBy(s, first) && g.finish.Some?
    requires forall n :: san(n, "") == ""
    ensures FinishedMessage(s, g, g.finish.value, san) == TranslateResponse(WholeResponse(first.chunk, g), first.newId, san).value
            <==> forall tc :: tc in g.tools ==> Arguments(tc) != ""
  {
    WholeContent(first.chunk, g, first.newId, san);
    FlushedIsBatch(g, san);
  }

  /** The client after the last chunk: the merged message finished, or blocks out of order. */
  ghost predicate Completed(ts: seq<Tick>, s: State, m: ClaudeMessage, san: Sanitizer) {
    var cs, k := Chunks(ts), FirstChoice(ts);
    && k < |ts| && NamedBy(s, ts[k]) && MergeAll(cs).finish.Some?
    && if Ordered(cs) then m == FinishedMessage(s, MergeAll(cs), MergeAll(cs).finish.value, san) else Inverted(m.content)
  }

  lemma {:induction false} CompletedRefines(ts: seq<Tick>, s: State, m: ClaudeMessage, san: Sanitizer)
    requires Completed(ts, s, m, san)
    requires forall n :: san(n, "") == ""
    ensures Refines(ts, m, san)
  {
    hide Ordered, FinishedMessage, MergeAll, Inverted;
    var first, g := ts[FirstChoice(ts)], MergeAll(Chunks(ts));
    FinishedIsBatch(s, first, g, san);
    BatchNotInverted(WholeResponse(first.chunk, g), first.newId, san);
    WholeContent(first.chunk, g, first.newId, san);
  }

  /** The chunk that finishes the message. */
  lemma {:induction false} FinishingStep(before: seq<Tick>, t: Tick, run: Session, san: Sanitizer)
    requires RunMatches(before, run) && Finishes(t.chunk)
    requires Visits(run.state.GetOr(NewState(t.now, t.chunk, t.newId)), t.chunk, t.order)
    requires FragmentsFollow(AnnouncedAll(Chunks(before)), t.chunk.choices[0].delta.toolCalls)
    requires NoDuplicates(AnnouncedAll(Chunks(before)) + Announced(t.chunk))
    ensures var last := Advance(run.state, t, san);
            last.state.Some? && Completed(before + [t], last.state.value, Received(run.events + last.events), san)
  {
    hide Matches, Step, FragmentsFollow, Ordered, AnnouncedAll, Inverted, Visits, Announced, FinishedMessage, ReasoningText,
         OrderedAfter, AssembleAll, MergeFragments;
    var ts, cs0, c := before + [t], Chunks(before), t.chunk;
    assert ts[..|ts| - 1] == before;
    ChunksSnoc(ts);
    FirstChoiceSnoc(ts);
    OrderedSnoc(Chunks(ts));
    IndicesSoFar(cs0);
    var m, g := Received(run.events), MergeAll(cs0);
    var s := run.state.GetOr(NewState(t.now, c, t.newId));
    assert run.state.None? ==> s == NewState(t.now, c, t.newId);
    var last := Advance(run.state, t, san);
    AssembleConcat(NOTHING, run.events, last.events);
    StepKeepsHeader(s, c, t.order, san);
    assert Ordered(Chunks(ts)) <==> Ordered(cs0) && OrderedAfter(g, c.choices[0].delta);
    assert MergeAll(Chunks(ts)) == MergeChunk(g, c) && MergeChunk(g, c).finish == c.choices[0].finishReason;
    assert last.state == Some(Step(s, c, t.order, san).state);
    hide MergeChunk, MergeAll, Chunks, FirstChoice;
    if Ordered(cs0) {
      AssembleLastStep(s, m, g, c, t.order, san);
    } else {
      InvertedForGood(m, last.events);
    }
  }

  lemma {:induction false} ConformantPrefix(cs: seq<Chunk>)
    requires cs != [] && Conformant(cs) && FirstFinish(cs[..|cs| - 1]) == FirstFinish(cs) < |cs| - 1
    ensures Conformant(cs[..|cs| - 1]) && NoArguments(cs[|cs| - 1])
  {
    var init := cs[..|cs| - 1];
    forall k | 0 <= k < |init| && init[k].choices != []
      ensures FragmentsFollow(AnnouncedAll(init[..k]), init[k].choices[0].delta.toolCalls)
    {
      assert init[..k] == cs[..k] && init[k] == cs[k];
    }
  }

  lemma {:induction false} MergeNothing(tools: seq<ToolCallFragment>, tcs: seq<ToolCallFragment>)
    requires AnnouncedIn(tcs) == [] && forall tc :: tc in tcs ==> Arguments(tc) == ""
    ensures MergeFragments(tools, tcs) == tools
  {
    hide FragmentIndex, Arguments;
    if tcs != [] {
      var init, tc := tcs[..|tcs| - 1], tcs[|tcs| - 1];
      assert tcs == init + [tc] && tc in tcs;
      assert tc.id == "" && AnnouncedIn(init) == [];
      MergeNothing(tools, init);
    }
  }

  lemma {:induction false} SilentMerge(g: Merged, c: Chunk)
    requires Silent(c) && NoArguments(c)
    ensures MergeChunk(g, c) == g
    ensures c.choices != [] ==> OrderedAfter(g, c.choices[0].delta)
  {
    hide ReasoningText;
    if c.choices != [] {
      MergeNothing(g.tools, c.choices[0].delta.toolCalls);
      assert g.reasoning + "" == g.reasoning && g.content + "" == g.content;
    }
  }

  /** A silent chunk without arguments after the end changes nothing. */
  lemma {:induction false} TrailingStep(ts: seq<Tick>, m: ClaudeMessage, san: Sanitizer)
    requires ts != [] && Refines(ts[..|ts| - 1], m, san) && Silent(ts[|ts| - 1].chunk) && NoArguments(ts[|ts| - 1].chunk)
    ensures Refines(ts, m, san)
  {
    hide Ordered, Silent, NoArguments, MergeChunk, OrderedAfter, FirstChoice;
    ChunksSnoc(ts);
    FirstChoiceSnoc(ts);
    OrderedSnoc(Chunks(ts));
    SilentMerge(MergeAll(Chunks(ts[..|ts| - 1])), ts[|ts| - 1].chunk);
    assert MergeAll(Chunks(ts)) == MergeAll(Chunks(ts[..|ts| - 1]));
  }

  /** For a well-behaved, conformant stream and every tool map order: assembling the
      events by block index gives the batch translation of the merged response (id,
      model, blocks and stop reason) if and only if reasoning, content and tool calls
      came in that order and no tool call came without arguments. */
  lemma {:induction false} StreamRefinesBatch(ts: seq<Tick>, san: Sanitizer)
    requires ValidRun(ts, san) && WellBehaved(Chunks(ts)) && Conformant(Chunks(ts))
    requires forall n :: san(n, "") == ""
    ensures Refines(ts, Received(Run(ts, san).events), san)
  {
    hide Refines, Silent, NoArguments, Advance, Conformant, FragmentsFollow, Announced, AnnouncedAll, RunMatches, Completed, Run, Finishes;
    var cs := Chunks(ts);
    var before, t := ts[..|ts| - 1], ts[|ts| - 1];
    RunSnoc(ts, san);
    ChunksSnoc(ts);
    FirstFinishSnoc(cs);
    var run := Run(before, san);
    assert before + [t] == ts;
    if FirstFinish(Chunks(before)) < |before| {
      ConformantPrefix(cs);
      StreamRefinesBatch(before, san);
      var _ := ReadRun(before, san);
      SilentStep(run.state.value, t, san);
      assert run.events + Advance(run.state, t, san).events == run.events;
      TrailingStep(ts, Received(run.events), san);
    } else {
      LastIsFinish(ts, san);
      RunSoFar(before, san);
      FinishingStep(before, t, run, san);
      CompletedRefines(ts, Advance(run.state, t, san).state.value, Received(Run(ts, san).events), san);
    }
  }

  lemma {:induction false} LastIsFinish(ts: seq<Tick>, san: Sanitizer)
    requires ts != [] && ValidRun(ts, san) && WellBehaved(Chunks(ts)) && Conformant(Chunks(ts))
    requires FirstFinish(Chunks(ts[..|ts| - 1])) == |ts| - 1
    ensures var before, t := ts[..|ts| - 1], ts[|ts| - 1];
            && SoFar(Chunks(before)) && Finishes(t.chunk)
            && Visits(Run(before, san).state.GetOr(NewState(t.now, t.chunk, t.newId)), t.chunk, t.order)
            && FragmentsFollow(AnnouncedAll(Chunks(before)), t.chunk.choices[0].delta.toolCalls)
            && NoDuplicates(AnnouncedAll(Chunks(before)) + Announced(t.chunk))
  {
    hide FragmentsFollow, Announced, Visits, Conformant, Silent, Advance, FirstFinish;
    ChunksSnoc(ts);
    FirstFinishSnoc(Chunks(ts));
    ConformantSnoc(Chunks(ts));
    NoDuplicatesPrefix(AnnouncedAll(Chunks(ts[..|ts| - 1])), Announced(ts[|ts| - 1].chunk));
  }
}
