/** The SSE pass-through that replaces error events and stops at `[DONE]`
    (backend/internal/proxy/sse.go). */
module SseCopy {
  import opened Basics
  import opened Strings
  import opened SseLines

  const DONE := "[DONE]"

  const ERROR_EVENT :=
    "data: {\"error\":{\"message\":\"Upstream service unavailable.\",\"type\":\"server_error\",\"code\":\"upstream_unavailable\"}}"

  const ERROR_FRAME := ERROR_EVENT + "\n\ndata: " + DONE + "\n\n"

  /** What stays outside: whether a JSON payload is an error, and which write to the client succeeds. */
  datatype Env = Env(isErrorPayload: string -> bool, accepts: nat -> bool)

  datatype End = Eof | ReadError

  datatype CopyResult = Completed | WriteFailed | ReadFailed

  // ----- one event -----

  function EventType(lines: seq<string>): string {
    if lines == [] then "" else
    var line := lines[|lines| - 1];
    if HasPrefix(line, "event:") then TrimSpace(line[6..]) else EventType(lines[..|lines| - 1])
  }

  function FieldValue(line: string): string
    requires HasPrefix(line, "data:")
  {
    CutPrefix(line[5..], " ")
  }

  function DataLines(lines: seq<string>): seq<string> {
    if lines == [] then [] else
    var line := lines[|lines| - 1];
    DataLines(lines[..|lines| - 1]) + if HasPrefix(line, "data:") then [FieldValue(line)] else []
  }

  predicate IsErrorEvent(lines: seq<string>, env: Env) {
    EqualFold(EventType(lines), "error") || env.isErrorPayload(Join(DataLines(lines), "\n"))
  }

  function Plain(lines: seq<string>): string {
    Join(lines, "\n") + "\n\n"
  }

  function Frame(lines: seq<string>, env: Env): string {
    if IsErrorEvent(lines, env) then ERROR_FRAME else Plain(lines)
  }

  method SanitizeEvent(lines: seq<string>, env: Env) returns (frame: string, isError: bool)
    ensures frame == Frame(lines, env) && isError == IsErrorEvent(lines, env)
  {
    var eventType := "";
    var dataLines: seq<string> := [];
    for n := 0 to |lines|
      invariant eventType == EventType(lines[..n]) && dataLines == DataLines(lines[..n])
    {
      assert lines[..n + 1][..n] == lines[..n];
      var line := lines[n];
      if HasPrefix(line, "event:") {
        PrefixHead(line, "event:");
        PrefixHead(line, "data:");
        eventType := TrimSpace(line[6..]);
        continue;
      }
      if HasPrefix(line, "data:") {
        dataLines := dataLines + [FieldValue(line)];
      }
    }
    assert lines[..|lines|] == lines;
    if EqualFold(eventType, "error") || env.isErrorPayload(Join(dataLines, "\n")) {
      return ERROR_FRAME, true;
    }
    return Plain(lines), false;
  }

  lemma {:induction false} ErrorFrameIsDone()
    ensures Contains(ERROR_FRAME, DONE)
  {
    var i := |ERROR_EVENT| + 8;
    assert ERROR_FRAME[i..] == DONE + "\n\n";
    ContainsAt(ERROR_FRAME, i, DONE);
  }

  // ----- the whole stream, as a splitter and a delivery of events -----

  /** Events are the runs of non-blank lines closed by a blank one; `open` is the last, unclosed run. */
  datatype Split = Split(events: seq<seq<string>>, open: seq<string>)

  function SplitEvents(lines: seq<string>): Split {
    if lines == [] then Split([], []) else
    var before, line := SplitEvents(lines[..|lines| - 1]), lines[|lines| - 1];
    if line != "" then before.(open := before.open + [line])
    else if before.open == [] then before
    else Split(before.events + [before.open], [])
  }

  datatype Delivery = Delivery(frames: seq<string>, result: Option<CopyResult>)

  /** One frame handed to the client as write number `n`. */
  function Send(frame: string, n: nat, env: Env): Delivery {
    Delivery([frame], if Contains(frame, DONE) then Some(Completed) else if env.accepts(n) then None else Some(WriteFailed))
  }

  /** Frames go out in order until one carries `[DONE]` or cannot be written. */
  function Deliver(events: seq<seq<string>>, n: nat, env: Env): Delivery {
    if events == [] then Delivery([], None) else
    var first := Send(Frame(events[0], env), n, env);
    if first.result.Some? then first else
    var rest := Deliver(events[1..], n + 1, env);
    Delivery(first.frames + rest.frames, rest.result)
  }

  predicate IsField(line: string) {
    HasPrefix(line, "data:") || HasPrefix(line, "event:") || HasPrefix(line, ":")
  }

  predicate AnyField(lines: seq<string>) {
    exists i :: 0 <= i < |lines| && IsField(lines[i])
  }

  /** The last write when the upstream has ended. */
  function Last(sent: seq<string>, frame: string, end: End, env: Env): Delivery {
    var last := Send(frame, |sent|, env);
    Delivery(sent + last.frames,
             if last.result.Some? then last.result else Some(if end == Eof then Completed else ReadFailed))
  }

  /** The upstream ended after `lines` and the unfinished line `tail`. */
  function Finish(sent: seq<string>, open: seq<string>, sawField: bool, tail: string, end: End, env: Env): Delivery {
    var open' := if tail == "" then open else open + [DropCR(tail)];
    if !sawField && tail != "" then LastRaw(sent, tail, end, env)
    else if open' == [] then Delivery(sent, Some(if end == Eof then Completed else ReadFailed))
    else Last(sent, Frame(open', env), end, env)
  }

  /** A body without SSE fields: only its unfinished last line is passed on, and the
      test for `[DONE]` is replaced by the error test. */
  function LastRaw(sent: seq<string>, tail: string, end: End, env: Env): Delivery {
    if env.isErrorPayload(tail) then Delivery(sent + [ERROR_FRAME], Some(Completed))
    else Delivery(sent + [tail],
                  Some(if !env.accepts(|sent|) then WriteFailed else if end == Eof then Completed else ReadFailed))
  }

  /** Everything `SSECopy` writes for the bytes `input`, and what it returns. */
  function Copied(input: string, end: End, env: Env): Delivery {
    var split := SplitEvents(Lines(input));
    var sent := Deliver(split.events, 0, env);
    if sent.result.Some? then sent
    else Finish(sent.frames, split.open, AnyField(Lines(input)), Rest(input), end, env)
  }

  // ----- more input only adds to what was already decided -----

  lemma {:induction false} OneFrame(frame: string, n: nat, env: Env)
    ensures Send(frame, n, env).frames == [frame]
  {
  }

  lemma {:induction false} DeliverSplit(a: seq<seq<string>>, b: seq<seq<string>>, n: nat, env: Env)
    ensures var first := Deliver(a, n, env);
            if first.result.Some? then Deliver(a + b, n, env) == first
            else && |first.frames| == |a|
                 && Deliver(a + b, n, env) == Delivery(first.frames + Deliver(b, n + |a|, env).frames, Deliver(b, n + |a|, env).result)
  {
    hide Frame, Send;
    if a == [] {
      assert a + b == b;
      assert [] + Deliver(b, n, env).frames == Deliver(b, n, env).frames;
    } else {
      assert (a + b)[1..] == a[1..] + b && (a + b)[0] == a[0];
      DeliverSplit(a[1..], b, n + 1, env);
      assert |Send(Frame(a[0], env), n, env).frames| == 1 by { OneFrame(Frame(a[0], env), n, env); }
    }
  }

  lemma {:induction false} SplitExtends(lines: seq<string>, more: seq<string>)
    ensures SplitEvents(lines).events <= SplitEvents(lines + more).events
    decreases |more|
  {
    if more == [] {
      assert lines + more == lines;
    } else {
      assert (lines + more)[..|lines + more| - 1] == lines + more[..|more| - 1];
      SplitExtends(lines, more[..|more| - 1]);
    }
  }

  /** Once some complete lines end the copy, nothing that follows matters. */
  lemma {:induction false} StoppedForGood(lines: seq<string>, input: string, end: End, env: Env)
    requires lines <= Lines(input) && Deliver(SplitEvents(lines).events, 0, env).result.Some?
    ensures Copied(input, end, env) == Deliver(SplitEvents(lines).events, 0, env)
  {
    var all := Lines(input);
    assert all == lines + all[|lines|..];
    SplitExtends(lines, all[|lines|..]);
    var a, b := SplitEvents(lines).events, SplitEvents(all).events;
    assert b == a + b[|a|..];
    DeliverSplit(a, b[|a|..], 0, env);
  }

  lemma {:induction false} LinesExtend(input: string, more: string)
    ensures Lines(input) <= Lines(input + more)
  {
    LinesSplit(input, more);
  }

  // ----- the incremental copy -----

  /** What the loop knows after the complete lines of the bytes read so far. */
  ghost predicate CopiedSoFar(lines: seq<string>, eventLines: seq<string>, sawField: bool, frames: seq<string>, env: Env) {
    && SplitEvents(lines).open == eventLines
    && Deliver(SplitEvents(lines).events, 0, env) == Delivery(frames, None)
    && sawField == AnyField(lines)
  }

  lemma {:induction false} NextLine(lines: seq<string>, line: string, eventLines: seq<string>, sawField: bool, frames: seq<string>, env: Env)
    requires CopiedSoFar(lines, eventLines, sawField, frames, env)
    ensures if line != "" then CopiedSoFar(lines + [line], eventLines + [line], sawField || IsField(line), frames, env)
            else if eventLines == [] then CopiedSoFar(lines + [line], [], sawField, frames, env)
            else var sent := Send(Frame(eventLines, env), |frames|, env);
                 var frames' := frames + sent.frames;
                 if sent.result.None? then CopiedSoFar(lines + [line], [], sawField, frames', env)
                 else Deliver(SplitEvents(lines + [line]).events, 0, env) == Delivery(frames', sent.result)
  {
    hide Frame, IsField, Send;
    var all := lines + [line];
    assert all[..|all| - 1] == lines;
    FieldSnoc(lines, line);
    if line == "" && eventLines != [] {
      var events := SplitEvents(lines).events;
      DeliverSplit(events, [eventLines], 0, env);
      DeliverOne(eventLines, |events|, env);
    }
  }

  lemma {:induction false} DeliverOne(event: seq<string>, n: nat, env: Env)
    ensures Deliver([event], n, env) == Send(Frame(event, env), n, env)
  {
    assert [event][1..] == [];
    assert Deliver([event][1..], n + 1, env) == Delivery([], None);
  }

  lemma {:induction false} FieldSnoc(lines: seq<string>, line: string)
    ensures AnyField(lines + [line]) <==> AnyField(lines) || IsField(line)
    ensures IsField("") == false
  {
    hide IsField;
    var all := lines + [line];
    assert all[|lines|] == line;
    if AnyField(lines) {
      var i :| 0 <= i < |lines| && IsField(lines[i]);
      assert all[i] == lines[i];
    }
    assert !IsField("") by { EmptyIsNoField(); }
  }

  lemma {:induction false} EmptyIsNoField()
    ensures !IsField("")
  {
  }

  lemma {:induction false} NothingCopied(env: Env)
    ensures CopiedSoFar([], [], false, [], env)
    ensures Lines("") == [] && Rest("") == ""
  {
  }

  method FlushEvent(eventLines: seq<string>, sent: seq<string>, env: Env) returns (frames: seq<string>, stopped: Option<CopyResult>)
    ensures if eventLines == [] then frames == sent && stopped == None
            else var s := Send(Frame(eventLines, env), |sent|, env); frames == sent + s.frames && stopped == s.result
  {
    if |eventLines| == 0 {
      return sent, None;
    }
    var out, isError := SanitizeEvent(eventLines, env);
    var sawDone := Contains(out, DONE);
    frames := sent + [out];
    if isError {
      ErrorFrameIsDone();
    }
    if !env.accepts(|sent|) {
      return frames, Some(if sawDone then Completed else WriteFailed);
    }
    return frames, if isError || sawDone then Some(Completed) else None;
  }

  /** What is written once the upstream has ended. */
  method FinishCopy(sent: seq<string>, eventLines: seq<string>, sawSSEField: bool, pending: string, end: End, env: Env)
    returns (frames: seq<string>, result: CopyResult)
    ensures Delivery(frames, Some(result)) == Finish(sent, eventLines, sawSSEField, pending, end, env)
  {
    frames := sent;
    if !sawSSEField && |pending| > 0 {
      var raw, sawDone := pending, false;
      if env.isErrorPayload(raw) {
        raw := ERROR_FRAME;
        sawDone := true;
      }
      frames := frames + [raw];
      if !env.accepts(|sent|) && !sawDone {
        return frames, WriteFailed;
      }
      return frames, if sawDone || end == Eof then Completed else ReadFailed;
    }
    var open := eventLines;
    if |pending| > 0 {
      open := open + [DropCR(pending)];
    }
    var stopped;
    frames, stopped := FlushEvent(open, frames, env);
    if stopped.Some? {
      return frames, stopped.value;
    }
    return frames, if end == Eof then Completed else ReadFailed;
  }

  /** Copies a body that arrives in `chunks`, the last of them together with `end`.
      However the body is cut, the frames and the result are those of the whole. */
  method SSECopy(chunks: seq<string>, end: End, env: Env) returns (frames: seq<string>, result: CopyResult)
    requires chunks != []
    ensures Delivery(frames, Some(result)) == Copied(Concat(chunks), end, env)
  {
    hide Frame, IsField, Deliver, SplitEvents, AnyField, Lines, Rest, Send, Finish, NewlineAt, DropCR;
    frames, result := [], Completed;
    var eventLines: seq<string>, sawSSEField, pending := [], false, "";
    ghost var lines: seq<string> := [];
    NothingCopied(env);
    assert chunks[..0] == [];
    for n := 0 to |chunks|
      invariant CopiedSoFar(lines, eventLines, sawSSEField, frames, env)
      invariant Lines(Concat(chunks[..n])) == lines && Rest(Concat(chunks[..n])) == pending
    {
      ghost var input := Concat(chunks[..n + 1]);
      assert chunks[..n + 1][..n] == chunks[..n];
      LinesSplit(Concat(chunks[..n]), chunks[n]);
      pending := pending + chunks[n];
      var idx := NewlineAt(pending);
      while idx < |pending|
        invariant idx == NewlineAt(pending)
        invariant CopiedSoFar(lines, eventLines, sawSSEField, frames, env)
        invariant Lines(input) == lines + Lines(pending) && Rest(input) == Rest(pending)
        decreases |pending|
      {
        var line := DropCR(pending[..idx]);
        NextLine(lines, line, eventLines, sawSSEField, frames, env);
        UnfoldLines(pending);
        pending := pending[idx + 1..];
        lines := lines + [line];
        idx := NewlineAt(pending);
        if line == "" {
          var stopped;
          frames, stopped := FlushEvent(eventLines, frames, env);
          eventLines := [];
          if stopped.Some? {
            assert chunks == chunks[..n + 1] + chunks[n + 1..];
            ConcatSplit(chunks[..n + 1], chunks[n + 1..]);
            LinesExtend(input, Concat(chunks[n + 1..]));
            StoppedForGood(lines, Concat(chunks), end, env);
            return frames, stopped.value;
          }
          continue;
        }
        if IsField(line) {
          sawSSEField := true;
        }
        eventLines := eventLines + [line];
      }
      UnfoldLines(pending);
    }
    assert chunks[..|chunks|] == chunks;
    frames, result := FinishCopy(frames, eventLines, sawSSEField, pending, end, env);
  }
}
