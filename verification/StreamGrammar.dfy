/** Which chunk sequences give a well-formed Claude stream: exactly the well-behaved ones. */
module StreamGrammar {
  import opened Basics
  import opened Messages
  import opened StreamTranslator
  import opened EventGrammar

  // ----- the condition on the incoming chunks -----

  /** Tool-map indices for which `tcs` carries an id, in order. */
  function AnnouncedIn(tcs: seq<ToolCallFragment>): seq<int> {
    if tcs == [] then [] else
    var tc := tcs[|tcs| - 1];
    AnnouncedIn(tcs[..|tcs| - 1]) + if tc.id == "" then [] else [FragmentIndex(tc)]
  }

  function Announced(c: Chunk): seq<int> {
    if c.choices == [] then [] else AnnouncedIn(c.choices[0].delta.toolCalls)
  }

  function AnnouncedAll(cs: seq<Chunk>): seq<int> {
    if cs == [] then [] else AnnouncedAll(cs[..|cs| - 1]) + Announced(cs[|cs| - 1])
  }

  /** A chunk with nothing to say: no choice, or at most tool arguments. */
  predicate Silent(c: Chunk) {
    c.choices == [] ||
    (var d := c.choices[0].delta;
     && ReasoningText(d) == "" && d.content == "" && Announced(c) == [] && !Finishes(c))
  }

  /** Position of the first finishing chunk, or |cs|. */
  function FirstFinish(cs: seq<Chunk>): (k: nat)
    ensures k <= |cs|
    ensures k < |cs| ==> Finishes(cs[k])
    ensures forall i :: 0 <= i < k ==> !Finishes(cs[i])
  {
    if cs == [] then 0 else
    var k := FirstFinish(cs[..|cs| - 1]);
    if k < |cs| - 1 || Finishes(cs[|cs| - 1]) then k else |cs|
  }

  /** Some chunk finishes, everything after it is silent, and up to it no
      tool-map index is given an id twice. */
  ghost predicate WellBehaved(cs: seq<Chunk>) {
    var k := FirstFinish(cs);
    && k < |cs|
    && (forall i :: k < i < |cs| ==> Silent(cs[i]))
    && NoDuplicates(AnnouncedAll(cs[..k + 1]))
  }

  // ----- reading what a step writes -----

  lemma {:induction false} ReadAllConcat(r: Reader, a: seq<Event>, b: seq<Event>)
    ensures ReadAll(r, a + b) == ReadAll(ReadAll(r, a), b)
    decreases |b|
  {
    if b == [] {
      assert a + b == a;
    } else {
      var b' := b[..|b| - 1];
      assert (a + b)[..|a + b| - 1] == a + b';
      ReadAllConcat(r, a, b');
    }
  }

  lemma {:induction false} ReadOne(r: Reader, e: Event)
    ensures ReadAll(r, [e]) == Read(r, e)
  {
    assert [e][..0] == [];
    assert ReadAll(r, [e][..0]) == r;
  }

  lemma {:induction false} RejectedForGood(es: seq<Event>)
    ensures ReadAll(Rejected, es) == Rejected
    ensures es != [] ==> ReadAll(Finished, es) == Rejected
  {
    if es != [] {
      RejectedForGood(es[..|es| - 1]);
    }
  }

  ghost predicate ToolOwns(s: State, i: int) {
    exists x :: x in s.toolCalls && s.toolCalls[x].blockIndex == i
  }

  ghost predicate Live(s: State, i: int) {
    || (s.thinkingBlockStarted && i == s.thinkingBlockIndex)
    || (s.textBlockStarted && i == s.textBlockIndex)
    || ToolOwns(s, i)
  }

  /** The reader has open exactly the blocks the state knows about, plus the
      `lost` ones whose map entry was overwritten. */
  ghost predicate Tracks(s: State, r: Reader, lost: set<int>) {
    && s.messageStartSent && r.InMessage? && r.next == s.nextBlockIndex
    && !(s.thinkingBlockStarted && s.textBlockStarted)
    && (s.textBlockStarted ==> !s.textBlockClosed)
    && (forall i :: i in r.open <==> Live(s, i) || i in lost)
    && (forall i :: i in lost ==> !Live(s, i) && i in r.open && r.open[i].ToolUse?)
    && (forall i :: i in r.open ==> i < r.next)
    && (s.thinkingBlockStarted ==> r.open[s.thinkingBlockIndex] == Thinking)
    && (s.textBlockStarted ==> r.open[s.textBlockIndex] == Text)
    && (forall x :: x in s.toolCalls ==> s.toolCalls[x].blockIndex in r.open && r.open[s.toolCalls[x].blockIndex].ToolUse?)
    && (forall x, y :: x in s.toolCalls && y in s.toolCalls && x != y ==> s.toolCalls[x].blockIndex != s.toolCalls[y].blockIndex)
  }

  lemma {:induction false} TrackStopThinking(s: State, r: Reader, lost: set<int>)
    requires Tracks(s, r, lost)
    ensures var o := StopThinking(s);
            Tracks(o.state, ReadAll(r, o.events), lost) && !o.state.thinkingBlockStarted
  {
    if s.thinkingBlockStarted {
      ReadOne(r, BlockStop(s.thinkingBlockIndex));
      var s' := StopThinking(s).state;
      assert forall i :: ToolOwns(s', i) <==> ToolOwns(s, i);
    }
  }

  lemma {:induction false} TrackStopText(s: State, r: Reader, lost: set<int>)
    requires Tracks(s, r, lost)
    ensures var o := StopText(s);
            Tracks(o.state, ReadAll(r, o.events), lost) && !o.state.textBlockStarted
  {
    if s.textBlockStarted {
      ReadOne(r, BlockStop(s.textBlockIndex));
      var s' := StopText(s).state;
      assert forall i :: ToolOwns(s', i) <==> ToolOwns(s, i);
    }
  }

  lemma {:induction false} TrackOpenThinking(s: State, r: Reader, lost: set<int>)
    requires Tracks(s, r, lost) && !s.textBlockStarted
    ensures var o := OpenThinking(s);
            && Tracks(o.state, ReadAll(r, o.events), lost)
            && o.state.thinkingBlockStarted && !o.state.textBlockStarted
  {
    if !s.thinkingBlockStarted {
      ReadOne(r, BlockStart(s.nextBlockIndex, Thinking));
      var s' := OpenThinking(s).state;
      assert forall i :: ToolOwns(s', i) <==> ToolOwns(s, i);
    }
  }

  lemma {:induction false} TrackOpenText(s: State, r: Reader, lost: set<int>)
    requires Tracks(s, r, lost) && !s.thinkingBlockStarted
    ensures var o := OpenText(s);
            && Tracks(o.state, ReadAll(r, o.events), lost)
            && o.state.textBlockStarted
  {
    if !s.textBlockStarted {
      ReadOne(r, BlockStart(s.nextBlockIndex, Text));
      var s' := OpenText(s).state;
      assert forall i :: ToolOwns(s', i) <==> ToolOwns(s, i);
    }
  }

  lemma {:induction false} TrackStopBoth(s: State, r: Reader, lost: set<int>)
    requires Tracks(s, r, lost)
    ensures var o := StopBoth(s);
            && Tracks(o.state, ReadAll(r, o.events), lost)
            && !o.state.thinkingBlockStarted && !o.state.textBlockStarted
  {
    var a := StopThinking(s);
    TrackStopThinking(s, r, lost);
    TrackStopText(a.state, ReadAll(r, a.events), lost);
    ReadAllConcat(r, a.events, StopText(a.state).events);
  }

  lemma {:induction false} TrackReasoning(s: State, r: Reader, lost: set<int>, text: string)
    requires Tracks(s, r, lost)
    ensures var o := AddReasoning(s, text); Tracks(o.state, ReadAll(r, o.events), lost)
  {
    if text != "" {
      var a := StopText(s);
      TrackStopText(s, r, lost);
      var r1 := ReadAll(r, a.events);
      var b := OpenThinking(a.state);
      TrackOpenThinking(a.state, r1, lost);
      var e := BlockDelta(b.state.thinkingBlockIndex, ThinkingDelta(text));
      ReadAllConcat(r, a.events, b.events);
      ReadAllConcat(r, a.events + b.events, [e]);
      ReadOne(ReadAll(r1, b.events), e);
    }
  }

  lemma {:induction false} TrackContent(s: State, r: Reader, lost: set<int>, text: string)
    requires Tracks(s, r, lost)
    ensures var o := AddContent(s, text); Tracks(o.state, ReadAll(r, o.events), lost)
  {
    if text != "" {
      var a := StopThinking(s);
      TrackStopThinking(s, r, lost);
      var r1 := ReadAll(r, a.events);
      var b := OpenText(a.state);
      TrackOpenText(a.state, r1, lost);
      var e := BlockDelta(b.state.textBlockIndex, TextDelta(text));
      ReadAllConcat(r, a.events, b.events);
      ReadAllConcat(r, a.events + b.events, [e]);
      ReadOne(ReadAll(r1, b.events), e);
    }
  }

  /** Announcing an index twice loses the block of the first announcement. */
  function LostBy(s: State, tc: ToolCallFragment): set<int> {
    if tc.id != "" && FragmentIndex(tc) in s.toolCalls then {s.toolCalls[FragmentIndex(tc)].blockIndex} else {}
  }

  /** Opening a tool block under an index drops the block that index had. */
  lemma {:induction false} ToolBlocksAfter(s: State, s': State, idx: int, tool: ToolCallState)
    requires s'.toolCalls == s.toolCalls[idx := tool]
    requires forall x, y :: x in s.toolCalls && y in s.toolCalls && x != y ==> s.toolCalls[x].blockIndex != s.toolCalls[y].blockIndex
    ensures forall i :: ToolOwns(s', i) <==>
              i == tool.blockIndex || (ToolOwns(s, i) && !(idx in s.toolCalls && s.toolCalls[idx].blockIndex == i))
  {
    forall i ensures ToolOwns(s', i) <==>
              i == tool.blockIndex || (ToolOwns(s, i) && !(idx in s.toolCalls && s.toolCalls[idx].blockIndex == i))
    {
      if i == tool.blockIndex {
        assert s'.toolCalls[idx].blockIndex == i;
      }
      if x :| x in s.toolCalls && x != idx && s.toolCalls[x].blockIndex == i {
        assert s'.toolCalls[x].blockIndex == i;
      }
    }
  }

  lemma {:induction false} StopBothKeepsTools(s: State)
    ensures StopBoth(s).state.toolCalls == s.toolCalls
  {
  }

  lemma {:induction false} TrackNewTool(s: State, r: Reader, lost: set<int>, tc: ToolCallFragment)
    requires Tracks(s, r, lost) && !s.thinkingBlockStarted && !s.textBlockStarted && tc.id != ""
    ensures var tool := ToolCallState(tc.id, ToolName(tc), s.nextBlockIndex);
            Tracks(s.(nextBlockIndex := s.nextBlockIndex + 1, toolCalls := s.toolCalls[FragmentIndex(tc) := tool]),
                   Read(r, BlockStart(s.nextBlockIndex, ToolUse(tc.id, ToolName(tc)))), lost + LostBy(s, tc))
  {
    hide ToolName;
    var tool := ToolCallState(tc.id, ToolName(tc), s.nextBlockIndex);
    var s' := s.(nextBlockIndex := s.nextBlockIndex + 1, toolCalls := s.toolCalls[FragmentIndex(tc) := tool]);
    ToolBlocksAfter(s, s', FragmentIndex(tc), tool);
  }

  lemma {:induction false} TrackAnnounce(s: State, r: Reader, lost: set<int>, tc: ToolCallFragment)
    requires Tracks(s, r, lost)
    ensures var o := AnnounceTool(s, tc); Tracks(o.state, ReadAll(r, o.events), lost + LostBy(s, tc))
  {
    hide Tracks, StopBoth, ToolName;
    if tc.id == "" {
      assert lost + {} == lost;
      return;
    }
    TrackStopBoth(s, r, lost);
    StopBothKeepsTools(s);
    var a := StopBoth(s);
    var r1 := ReadAll(r, a.events);
    var e := BlockStart(a.state.nextBlockIndex, ToolUse(tc.id, ToolName(tc)));
    ReadAllConcat(r, a.events, [e]);
    ReadOne(r1, e);
    TrackNewTool(a.state, r1, lost, tc);
  }

  /** The tool map holds exactly the announced indices, and a block is lost iff
      an index was announced twice. */
  ghost predicate Announces(s: State, lost: set<int>, ann: seq<int>) {
    && (forall x :: x in s.toolCalls <==> x in ann)
    && (lost == {} <==> NoDuplicates(ann))
  }

  lemma {:induction false} NoDuplicatesSnoc(ann: seq<int>, x: int)
    ensures NoDuplicates(ann + [x]) <==> NoDuplicates(ann) && x !in ann
  {
    var all := ann + [x];
    if NoDuplicates(all) {
      assert forall i :: 0 <= i < |ann| ==> all[i] == ann[i];
      assert all[|ann|] == x;
    }
  }

  lemma {:induction false} TrackBuffer(s: State, r: Reader, lost: set<int>, tc: ToolCallFragment)
    requires Tracks(s, r, lost)
    ensures Tracks(BufferArguments(s, tc), r, lost)
  {
    assert forall i :: ToolOwns(BufferArguments(s, tc), i) <==> ToolOwns(s, i);
  }

  lemma {:induction false} ToolMapAfter(s: State, tc: ToolCallFragment)
    ensures var tools := AddFragment(s, tc).state.toolCalls;
            if tc.id == "" then tools == s.toolCalls else tools.Keys == s.toolCalls.Keys + {FragmentIndex(tc)}
  {
  }

  lemma {:induction false} AnnounceFragment(s: State, lost: set<int>, ann: seq<int>, tc: ToolCallFragment)
    requires Announces(s, lost, ann)
    ensures Announces(AddFragment(s, tc).state, lost + LostBy(s, tc), ann + AnnouncedIn([tc]))
  {
    ToolMapAfter(s, tc);
    hide AddFragment;
    var idx := FragmentIndex(tc);
    assert [tc][..0] == [];
    if tc.id == "" {
      assert ann + AnnouncedIn([tc]) == ann;
    } else {
      assert ann + AnnouncedIn([tc]) == ann + [idx];
      NoDuplicatesSnoc(ann, idx);
    }
  }

  lemma {:induction false} TrackFragment(s: State, r: Reader, lost: set<int>, tc: ToolCallFragment)
    requires Tracks(s, r, lost)
    ensures var o := AddFragment(s, tc); Tracks(o.state, ReadAll(r, o.events), lost + LostBy(s, tc))
  {
    TrackAnnounce(s, r, lost, tc);
    var o := AnnounceTool(s, tc);
    TrackBuffer(o.state, ReadAll(r, o.events), lost + LostBy(s, tc), tc);
  }

  lemma {:induction false} TrackFragments(s: State, r: Reader, lost: set<int>, ann: seq<int>, tcs: seq<ToolCallFragment>)
    returns (lost': set<int>)
    requires Tracks(s, r, lost) && Announces(s, lost, ann)
    ensures var o := AddFragments(s, tcs);
            && Tracks(o.state, ReadAll(r, o.events), lost')
            && Announces(o.state, lost', ann + AnnouncedIn(tcs))
  {
    hide Tracks, Announces, AddFragment, LostBy;
    if tcs == [] {
      lost' := lost;
      assert ann + [] == ann;
      return;
    }
    var init, tc := tcs[..|tcs| - 1], tcs[|tcs| - 1];
    var lost1 := TrackFragments(s, r, lost, ann, init);
    var before := AddFragments(s, init);
    TrackFragment(before.state, ReadAll(r, before.events), lost1, tc);
    AnnounceFragment(before.state, lost1, ann + AnnouncedIn(init), tc);
    ReadAllConcat(r, before.events, AddFragment(before.state, tc).events);
    lost' := lost1 + LostBy(before.state, tc);
    assert [tc][..0] == [];
    assert ann + AnnouncedIn(tcs) == ann + AnnouncedIn(init) + AnnouncedIn([tc]);
  }

  /** After the tools in `order` are flushed their blocks are closed and no others. */
  lemma {:induction false} FlushCloses(s: State, r: Reader, lost: set<int>, order: seq<int>, san: Sanitizer)
    requires Tracks(s, r, lost) && NoDuplicates(order)
    requires forall x :: x in order ==> x in s.toolCalls
    ensures var r' := ReadAll(r, FlushTools(s, order, san));
            && r'.InMessage?
            && (forall i :: i in r'.open <==> i in r.open && forall x :: x in order ==> s.toolCalls[x].blockIndex != i)
            && (forall i :: i in r'.open ==> r'.open[i] == r.open[i])
  {
    hide FlushTools;
    NothingFlushed(s, san);
    if order == [] {
      return;
    }
    var init, idx := order[..|order| - 1], order[|order| - 1];
    assert order == init + [idx];
    OneMoreFlushed(s, init, idx, san);
    FlushCloses(s, r, lost, init, san);
    var before := FlushTools(s, init, san);
    var r1 := ReadAll(r, before);
    var tool := s.toolCalls[idx];
    var es := FlushTool(s, idx, san);
    ReadAllConcat(r, before, es);
    assert forall x :: x in init ==> x != idx;
    assert tool.blockIndex in r1.open;
    ReadAllConcat(r1, [es[0]], [es[1]]);
    assert es == [es[0]] + [es[1]];
    ReadOne(r1, es[0]);
    ReadOne(r1, es[1]);
  }

  lemma {:induction false} ClosingReads(s: State, r: Reader, finish: string)
    requires r.InMessage?
    ensures ReadAll(r, Closing(s, finish)) == if r.open == map[] then Finished else Rejected
  {
    var end := Closing(s, finish);
    assert end == [end[0]] + [end[1]];
    ReadAllConcat(r, [end[0]], [end[1]]);
    ReadOne(r, end[0]);
    ReadOne(Read(r, end[0]), end[1]);
  }

  /** A finishing chunk ends the message, and the reader accepts unless a block was lost. */
  lemma {:induction false} FinishReads(s: State, r: Reader, lost: set<int>, finish: string, order: seq<int>, san: Sanitizer)
    requires Tracks(s, r, lost)
    requires Enumerates(order, s.toolCalls.Keys)
    ensures var o := Finish(s, Some(finish), order, san);
            && o.state.messageStartSent
            && ReadAll(r, o.events) == if lost == {} then Finished else Rejected
  {
    TrackStopBoth(s, r, lost);
    var a := StopBoth(s);
    assert a.state.toolCalls == s.toolCalls;
    var r1 := ReadAll(r, a.events);
    var flushed := FlushTools(a.state, order, san);
    FlushCloses(a.state, r1, lost, order, san);
    var r2 := ReadAll(r1, flushed);
    assert forall i :: i in r2.open <==> i in lost;
    assert lost == {} <==> r2.open == map[];
    hide Tracks, FlushTools;
    ReadAllConcat(r, a.events, flushed);
    ReadAllConcat(r, a.events + flushed, Closing(s, finish));
    ClosingReads(s, r2, finish);
  }

  // ----- whole chunks and whole runs -----

  lemma {:induction false} TrackDelta(s: State, r: Reader, lost: set<int>, ann: seq<int>, d: Delta) returns (lost': set<int>)
    requires Tracks(s, r, lost) && Announces(s, lost, ann)
    ensures var o := AddDelta(s, d);
            && Tracks(o.state, ReadAll(r, o.events), lost')
            && Announces(o.state, lost', ann + AnnouncedIn(d.toolCalls))
  {
    var a := AddReasoning(s, ReasoningText(d));
    var b := AddContent(a.state, d.content);
    var t := AddFragments(b.state, d.toolCalls);
    assert Announces(b.state, lost, ann);
    hide Tracks, AddReasoning, AddContent, AddFragments, Announces;
    TrackReasoning(s, r, lost, ReasoningText(d));
    var r1 := ReadAll(r, a.events);
    TrackContent(a.state, r1, lost, d.content);
    ReadAllConcat(r, a.events, b.events);
    lost' := TrackFragments(b.state, ReadAll(r1, b.events), lost, ann, d.toolCalls);
    ReadAllConcat(r, a.events + b.events, t.events);
  }

  /** What the reader knows at the start of a chunk: nothing yet, or the open message. */
  ghost predicate InProgress(state: Option<State>, r: Reader, lost: set<int>, ann: seq<int>) {
    if state.None? then r == Waiting && lost == {} && ann == []
    else Tracks(state.value, r, lost) && Announces(state.value, lost, ann)
  }

  lemma {:induction false} TrackStart(s: State, r: Reader, lost: set<int>, ann: seq<int>, c: Chunk)
    requires if s.messageStartSent then InProgress(Some(s), r, lost, ann)
             else InProgress(None, r, lost, ann) && exists now, id :: s == NewState(now, c, id)
    ensures var o := StartMessage(TakeUsage(s, c)); InProgress(Some(o.state), ReadAll(r, o.events), lost, ann)
  {
    var s' := StartMessage(TakeUsage(s, c)).state;
    assert forall i :: ToolOwns(s', i) <==> ToolOwns(s, i);
    if !s.messageStartSent {
      ReadOne(r, MessageStart(s.messageId, s.model));
    }
  }

  /** One chunk read from a message in progress: the message goes on, or it ends
      and is accepted iff no index was ever announced twice. */
  lemma {:induction false} TrackAdvance(state: Option<State>, r: Reader, lost: set<int>, ann: seq<int>, t: Tick, san: Sanitizer)
    returns (lost': set<int>)
    requires InProgress(state, r, lost, ann)
    requires (state.None? && t.chunk.choices == []) ||
             Visits(state.GetOr(NewState(t.now, t.chunk, t.newId)), t.chunk, t.order)
    ensures var o := Advance(state, t, san);
            var ann' := ann + Announced(t.chunk);
            if Finishes(t.chunk)
            then && o.state.Some? && o.state.value.messageStartSent
                 && ReadAll(r, o.events) == if NoDuplicates(ann') then Finished else Rejected
            else InProgress(o.state, ReadAll(r, o.events), lost', ann')
  {
    lost' := lost;
    var c := t.chunk;
    if c.choices == [] {
      assert ann + Announced(c) == ann;
    }
    if state.None? && c.choices == [] {
      return;
    }
    var s := state.GetOr(NewState(t.now, c, t.newId));
    assert state.None? ==> s == NewState(t.now, c, t.newId);
    TrackStart(s, r, lost, ann, c);
    var started := StartMessage(TakeUsage(s, c));
    if c.choices == [] {
      return;
    }
    hide Tracks, TakeUsage, StartMessage, AddDelta, Finish, Announces;
    var r1 := ReadAll(r, started.events);
    var body := AddDelta(started.state, c.choices[0].delta);
    lost' := TrackDelta(started.state, r1, lost, ann, c.choices[0].delta);
    ReadAllConcat(r, started.events, body.events);
    var end := Finish(body.state, c.choices[0].finishReason, t.order, san);
    ReadAllConcat(r, started.events + body.events, end.events);
    TrackEnd(body.state, ReadAll(r1, body.events), lost', ann + Announced(c), c.choices[0].finishReason, t.order, san);
  }

  lemma {:induction false} TrackEnd(s: State, r: Reader, lost: set<int>, ann: seq<int>, finish: Option<string>, order: seq<int>, san: Sanitizer)
    requires Tracks(s, r, lost) && Announces(s, lost, ann)
    requires finish.Some? ==> Enumerates(order, s.toolCalls.Keys)
    ensures var o := Finish(s, finish, order, san);
            if finish.Some? then o.state.messageStartSent && ReadAll(r, o.events) == if NoDuplicates(ann) then Finished else Rejected
            else o.state == s && ReadAll(r, o.events) == r
  {
    if finish.Some? {
      FinishReads(s, r, lost, finish.value, order, san);
    }
  }

  lemma {:induction false} SilentFragments(s: State, tcs: seq<ToolCallFragment>)
    ensures AddFragments(s, tcs).events == [] <==> AnnouncedIn(tcs) == []
  {
    if tcs != [] {
      SilentFragments(s, tcs[..|tcs| - 1]);
    }
  }

  /** Once the message has started, exactly the silent chunks write nothing. */
  lemma {:induction false} SilentStep(s: State, t: Tick, san: Sanitizer)
    requires s.messageStartSent
    ensures var o := Advance(Some(s), t, san);
            o.state.Some? && o.state.value.messageStartSent && (o.events == [] <==> Silent(t.chunk))
  {
    if t.chunk.choices != [] {
      var d := t.chunk.choices[0].delta;
      var a := AddReasoning(TakeUsage(s, t.chunk), ReasoningText(d));
      SilentFragments(AddContent(a.state, d.content).state, d.toolCalls);
      StepKeepsHeader(s, t.chunk, t.order, san);
    }
  }

  /** The message header is settled: same id and model, and nothing starts again. */
  predicate SameHeader(s: State, s': State) {
    && s'.messageStartSent == s.messageStartSent && s'.createdAt == s.createdAt
    && s'.messageId == s.messageId && s'.model == s.model
  }

  lemma {:induction false} FragmentsKeepHeader(s: State, tcs: seq<ToolCallFragment>)
    ensures SameHeader(s, AddFragments(s, tcs).state)
  {
    hide AddFragment;
    if tcs != [] {
      var before := AddFragments(s, tcs[..|tcs| - 1]).state;
      FragmentsKeepHeader(s, tcs[..|tcs| - 1]);
      FragmentKeepsHeader(before, tcs[|tcs| - 1]);
    }
  }

  lemma {:induction false} StopsKeepHeader(s: State)
    ensures SameHeader(s, StopBoth(s).state)
  {
  }

  lemma {:induction false} FragmentKeepsHeader(s: State, tc: ToolCallFragment)
    ensures SameHeader(s, AddFragment(s, tc).state)
  {
    hide StopBoth, ToolName, FragmentIndex;
    StopsKeepHeader(s);
    assert SameHeader(s, AnnounceTool(s, tc).state);
    hide AnnounceTool;
  }

  lemma {:induction false} DeltaKeepsHeader(s: State, d: Delta)
    ensures SameHeader(s, AddDelta(s, d).state)
  {
    var a := AddReasoning(s, ReasoningText(d)).state;
    assert SameHeader(s, a);
    var b := AddContent(a, d.content).state;
    assert SameHeader(a, b);
    hide AddReasoning, AddContent;
    FragmentsKeepHeader(b, d.toolCalls);
  }

  lemma {:induction false} StepKeepsHeader(s: State, c: Chunk, order: seq<int>, san: Sanitizer)
    ensures SameHeader(s.(messageStartSent := true), Step(s, c, order, san).state)
  {
    var started := StartMessage(TakeUsage(s, c)).state;
    assert SameHeader(s.(messageStartSent := true), started);
    if c.choices != [] {
      var body := AddDelta(started, c.choices[0].delta).state;
      DeltaKeepsHeader(started, c.choices[0].delta);
      assert SameHeader(body, Finish(body, c.choices[0].finishReason, order, san).state);
    }
  }

  lemma {:induction false} ChunksSnoc(ts: seq<Tick>)
    requires ts != []
    ensures Chunks(ts)[..|ts| - 1] == Chunks(ts[..|ts| - 1])
    ensures Chunks(ts)[|ts| - 1] == ts[|ts| - 1].chunk
  {
  }

  lemma {:induction false} FirstFinishSnoc(cs: seq<Chunk>)
    requires cs != []
    ensures var init, c := cs[..|cs| - 1], cs[|cs| - 1];
            if FirstFinish(init) < |init|
            then FirstFinish(cs) == FirstFinish(init) && (WellBehaved(cs) <==> WellBehaved(init) && Silent(c))
            else if Finishes(c) then FirstFinish(cs) == |cs| - 1 && (WellBehaved(cs) <==> NoDuplicates(AnnouncedAll(cs)))
            else FirstFinish(cs) == |cs|
  {
    hide Silent, Finishes, AnnouncedAll;
    var init := cs[..|cs| - 1];
    var k := FirstFinish(init);
    if k < |init| {
      assert cs[..k + 1] == init[..k + 1];
      assert forall i :: 0 <= i < |init| ==> cs[i] == init[i];
    } else {
      assert cs[..|cs|] == cs;
    }
  }

  /** Invariant of a run: before the first finishing chunk the reader follows the
      open message; from then on it has accepted iff the chunks are well-behaved. */
  lemma {:induction false} ReadRun(ts: seq<Tick>, san: Sanitizer) returns (lost: set<int>)
    requires ValidRun(ts, san)
    ensures var cs, o := Chunks(ts), Run(ts, san);
            var r := ReadAll(Waiting, o.events);
            if FirstFinish(cs) == |cs| then InProgress(o.state, r, lost, AnnouncedAll(cs))
            else o.state.Some? && o.state.value.messageStartSent && r == if WellBehaved(cs) then Finished else Rejected
  {
    hide Tracks, Advance, Silent, Read;
    lost := {};
    if ts == [] {
      return;
    }
    hide WellBehaved, InProgress;
    var before, t := ts[..|ts| - 1], ts[|ts| - 1];
    ChunksSnoc(ts);
    var cs0 := Chunks(before);
    FirstFinishSnoc(Chunks(ts));
    lost := ReadRun(before, san);
    var o := Run(before, san);
    var r := ReadAll(Waiting, o.events);
    var last := Advance(o.state, t, san);
    ReadAllConcat(Waiting, o.events, last.events);
    if FirstFinish(cs0) == |cs0| {
      lost := TrackAdvance(o.state, r, lost, AnnouncedAll(cs0), t, san);
    } else {
      SilentStep(o.state.value, t, san);
      RejectedForGood(last.events);
    }
  }

  /** The events of a run form a complete, well-formed Claude message exactly when the
      chunks are well-behaved, whatever order the tool map is visited in. */
  lemma {:induction false} WellFormedIffWellBehaved(ts: seq<Tick>, san: Sanitizer)
    requires ValidRun(ts, san)
    ensures WellFormed(Run(ts, san).events) <==> WellBehaved(Chunks(ts))
  {
    var _ := ReadRun(ts, san);
    AcceptedIffWellFormed(Run(ts, san).events);
  }

  function OneChunk(d: Delta, finish: Option<string>): Chunk {
    Chunk("c", "m", [Choice(d, finish)], None)
  }

  /** A run of one chunk. */
  lemma {:induction false} OneTick(t: Tick, san: Sanitizer)
    requires t.chunk.choices != [] && Visits(NewState(t.now, t.chunk, t.newId), t.chunk, t.order)
    ensures ValidRun([t], san) && Chunks([t]) == [t.chunk]
    ensures AnnouncedAll([t.chunk]) == Announced(t.chunk)
    ensures FirstFinish([t.chunk]) == if Finishes(t.chunk) then 0 else 1
  {
    hide Step, Visits, NewState, Announced, Finishes;
    assert [t][..0] == [] && [t.chunk][..0] == [];
    assert AnnouncedAll([t.chunk][..0]) + Announced(t.chunk) == Announced(t.chunk);
  }

  lemma {:induction false} OneTool(s: State, tc: ToolCallFragment)
    requires tc.id != ""
    ensures AddFragments(s, [tc]).state.toolCalls.Keys == s.toolCalls.Keys + {FragmentIndex(tc)}
    ensures AnnouncedIn([tc]) == [FragmentIndex(tc)]
  {
    hide AddFragment;
    assert [tc][..0] == [];
    assert AddFragments(s, [tc][..0]).state == s;
    assert AnnouncedIn([tc][..0]) + [FragmentIndex(tc)] == [FragmentIndex(tc)];
    ToolMapAfter(s, tc);
  }

  lemma {:induction false} TwoTools(s: State, a: ToolCallFragment, b: ToolCallFragment)
    requires a.id != "" && b.id != ""
    ensures AddFragments(s, [a, b]).state.toolCalls.Keys == s.toolCalls.Keys + {FragmentIndex(a), FragmentIndex(b)}
    ensures AnnouncedIn([a, b]) == [FragmentIndex(a), FragmentIndex(b)]
  {
    hide AddFragment;
    assert [a, b][..1] == [a];
    OneTool(s, a);
    ToolMapAfter(AddFragments(s, [a]).state, b);
  }

  /** A message that finishes in order but names two calls under one index is not well-formed. */
  lemma {:induction false} TwoIdsForOneIndex(san: Sanitizer) returns (t: Tick)
    ensures t.chunk.choices != [] && Finishes(t.chunk) && ValidRun([t], san)
    ensures !WellFormed(Run([t], san).events)
  {
    hide WellFormed, Run, ValidRun, AddFragment;
    var a, b := ToolCallFragment(None, "a", None), ToolCallFragment(None, "b", None);
    var c := OneChunk(Delta("", "", "", [a, b]), Some("tool_calls"));
    t := Tick(c, 1, "id", [0]);
    var s := StartMessage(TakeUsage(NewState(1, c, "id"), c)).state;
    TwoTools(s, a, b);
    OneTick(t, san);
    WellFormedIffWellBehaved([t], san);
    assert [c][..1] == [c];
    assert AnnouncedAll([c])[0] == AnnouncedAll([c])[1];
  }
}
