/** What the pass-through promises about the bytes it writes. */
module SseCopyTheorems {
  import opened Basics
  import opened Strings
  import opened SseLines
  import opened SseCopy

  // ----- nothing after the end -----

  lemma {:induction false} DeliverStops(events: seq<seq<string>>, n: nat, env: Env)
    ensures var d := Deliver(events, n, env);
            && (forall i :: 0 <= i < |d.frames| - 1 ==> !Contains(d.frames[i], DONE))
            && (d.result.None? ==> forall i :: 0 <= i < |d.frames| ==> !Contains(d.frames[i], DONE))
  {
    hide Frame, Contains;
    if events != [] {
      DeliverStops(events[1..], n + 1, env);
      var first, rest, d := Send(Frame(events[0], env), n, env), Deliver(events[1..], n + 1, env), Deliver(events, n, env);
      if first.result.None? {
        assert d.frames == [Frame(events[0], env)] + rest.frames;
        assert forall i :: 0 < i < |d.frames| ==> d.frames[i] == rest.frames[i - 1];
      }
    }
  }

  /** No frame follows one that carries `[DONE]`; the error frame is one of those. */
  lemma {:induction false} NothingAfterDone(input: string, end: End, env: Env)
    ensures var frames := Copied(input, end, env).frames;
            forall i :: 0 <= i < |frames| && (Contains(frames[i], DONE) || frames[i] == ERROR_FRAME) ==> i == |frames| - 1
  {
    hide Contains, Frame;
    DeliverStops(SplitEvents(Lines(input)).events, 0, env);
    ErrorFrameIsDone();
  }

  // ----- which bytes survive -----

  /** `s` without line ends. */
  function Visible(s: string): string {
    if s == "" then "" else
    var c := s[|s| - 1];
    Visible(s[..|s| - 1]) + if c == '\r' || c == '\n' then "" else [c]
  }

  lemma {:induction false} VisibleSplit(a: string, b: string)
    ensures Visible(a + b) == Visible(a) + Visible(b)
    decreases |b|
  {
    if b == "" {
      assert a + b == a;
    } else {
      assert (a + b)[..|a + b| - 1] == a + b[..|b| - 1];
      VisibleSplit(a, b[..|b| - 1]);
    }
  }

  lemma {:induction false} VisibleDropCR(line: string)
    ensures Visible(DropCR(line)) == Visible(line)
  {
    if HasSuffix(line, "\r") {
      assert line[|line| - 1..][0] == '\r';
      assert line[|line| - 1] == '\r';
    }
  }

  lemma {:induction false} VisibleJoin(parts: seq<string>)
    ensures Visible(Join(parts, "\n")) == Visible(Concat(parts))
  {
    var n := |parts| - 1;
    if |parts| == 1 {
      assert parts[..0] == [] && "" + parts[0] == parts[0];
    } else if |parts| > 1 {
      VisibleJoin(parts[..n]);
      VisibleSplit(Join(parts[..n], "\n") + "\n", parts[n]);
      VisibleSplit(Join(parts[..n], "\n"), "\n");
      VisibleSplit(Concat(parts[..n]), parts[n]);
      VisibleNewline();
    }
  }

  lemma {:induction false} VisibleNewline()
    ensures Visible("\n") == "" && Visible("\n\n") == ""
  {
    assert "\n"[..0] == "" && "\n\n"[..1] == "\n";
  }

  lemma {:induction false} VisiblePlain(lines: seq<string>)
    ensures Visible(Plain(lines)) == Visible(Concat(lines))
  {
    VisibleJoin(lines);
    VisibleSplit(Join(lines, "\n"), "\n\n");
    VisibleNewline();
  }

  lemma {:induction false} ConcatCons(part: string, parts: seq<string>)
    ensures Concat([part] + parts) == part + Concat(parts)
  {
    ConcatSplit([part], parts);
    assert [part][..0] == [] && "" + part == part;
  }

  lemma {:induction false} VisibleFirstLine(line: string, more: string)
    ensures Visible(line + "\n" + more) == Visible(DropCR(line)) + Visible(more)
  {
    VisibleSplit(line + "\n", more);
    VisibleSplit(line, "\n");
    VisibleNewline();
    VisibleDropCR(line);
  }

  lemma {:induction false} VisibleLines(s: string)
    ensures Visible(s) == Visible(Concat(Lines(s))) + Visible(Rest(s))
  {
    hide Visible, DropCR, Concat;
    var i := NewlineAt(s);
    if i == |s| {
      VisibleNone();
    } else {
      var line, more := s[..i], s[i + 1..];
      assert s == line + "\n" + more;
      VisibleFirstLine(line, more);
      VisibleLines(more);
      ConcatCons(DropCR(line), Lines(more));
      VisibleSplit(DropCR(line), Concat(Lines(more)));
    }
  }

  lemma {:induction false} VisibleNone()
    ensures Visible("") == "" && Visible(Concat([])) == ""
  {
  }

  function Plains(events: seq<seq<string>>): seq<string> {
    seq(|events|, i requires 0 <= i < |events| => Plain(events[i]))
  }

  lemma {:induction false} VisibleSnoc(parts: seq<string>, part: string)
    ensures Visible(Concat(parts + [part])) == Visible(Concat(parts)) + Visible(part)
  {
    assert (parts + [part])[..|parts|] == parts;
    VisibleSplit(Concat(parts), part);
  }

  lemma {:induction false} VisibleEvents(lines: seq<string>)
    ensures var split := SplitEvents(lines);
            Visible(Concat(lines)) == Visible(Concat(Plains(split.events))) + Visible(Concat(split.open))
  {
    hide Visible, Concat, Plain;
    VisibleNone();
    if lines == [] {
      assert Plains([]) == [];
      return;
    }
    var init, line := lines[..|lines| - 1], lines[|lines| - 1];
    VisibleEvents(init);
    assert lines == init + [line];
    VisibleSnoc(init, line);
    var before := SplitEvents(init);
    if line != "" {
      VisibleSnoc(before.open, line);
    } else if before.open != [] {
      assert Plains(before.events + [before.open]) == Plains(before.events) + [Plain(before.open)];
      VisibleSnoc(Plains(before.events), Plain(before.open));
      VisiblePlain(before.open);
    }
  }

  // ----- what is heard of a body -----

  predicate Carries(event: seq<string>) {
    Contains(Plain(event), DONE)
  }

  function CompleteEvents(input: string): seq<seq<string>> {
    SplitEvents(Lines(input)).events
  }

  predicate SaysDone(input: string) {
    exists i :: 0 <= i < |CompleteEvents(input)| && Carries(CompleteEvents(input)[i])
  }

  /** The body up to the end of the first complete event that carries `[DONE]`, looking
      from byte `n` on; all of it if there is none. */
  function HeardFrom(input: string, n: nat): (h: string)
    requires n <= |input| && (n == 0 || !SaysDone(input[..n - 1]))
    ensures h <= input && (h != input ==> SaysDone(h))
    ensures h == "" || !SaysDone(h[..|h| - 1])
    decreases |input| - n
  {
    assert input[..|input|] == input;
    assert n > 0 ==> input[..n][..n - 1] == input[..n - 1];
    if n == |input| || SaysDone(input[..n]) then input[..n] else HeardFrom(input, n + 1)
  }

  function Heard(input: string): (h: string)
    ensures h <= input && (h != input ==> SaysDone(h))
    ensures h == "" || !SaysDone(h[..|h| - 1])
  {
    HeardFrom(input, 0)
  }

  /** The event that the end of the body closes. */
  function LastEvent(input: string): seq<string> {
    SplitEvents(Lines(input)).open + if Rest(input) == "" then [] else [DropCR(Rest(input))]
  }

  /** The last write, of a body without SSE fields or of the last event, is an error. */
  predicate LastIsError(input: string, env: Env) {
    if !AnyField(Lines(input)) && Rest(input) != "" then env.isErrorPayload(Rest(input))
    else LastEvent(input) != [] && IsErrorEvent(LastEvent(input), env)
  }

  /** No event heard is an error, and no write fails. */
  ghost predicate PassedThrough(input: string, end: End, env: Env) {
    var h := Heard(input);
    && (forall e :: e in CompleteEvents(h) ==> !IsErrorEvent(e, env)) && !LastIsError(h, env)
    && forall i :: 0 <= i < |Copied(input, end, env).frames| ==> env.accepts(i)
  }

  /** A body without any SSE field that does not end with a line feed, and has text
      in its last run of complete lines. */
  predicate DropsLines(input: string) {
    !AnyField(Lines(input)) && Rest(input) != "" && Visible(Concat(SplitEvents(Lines(input)).open)) != ""
  }

  /** Events that are no errors go out as they are, up to the first that carries `[DONE]`. */
  lemma {:induction false} DeliverPlain(events: seq<seq<string>>, n: nat, env: Env)
    requires forall e :: e in events ==> !IsErrorEvent(e, env)
    requires forall i :: n <= i < n + |Deliver(events, n, env).frames| ==> env.accepts(i)
    requires forall i :: 0 <= i < |events| - 1 ==> !Carries(events[i])
    ensures Deliver(events, n, env) == Delivery(Plains(events), if events != [] && Carries(events[|events| - 1]) then Some(Completed) else None)
  {
    hide Contains, IsErrorEvent, Plain;
    if events == [] {
      return;
    }
    var first := events[0];
    assert first in events;
    if |events| == 1 {
      assert events == [first] && events[1..] == [];
      assert Plains(events) == [Plain(first)];
    } else {
      var rest := Deliver(events[1..], n + 1, env);
      assert !Carries(events[0]);
      assert Deliver(events, n, env).frames == [Plain(first)] + rest.frames;
      assert forall i :: 0 <= i < |events[1..]| ==> events[1..][i] == events[i + 1];
      DeliverPlain(events[1..], n + 1, env);
      assert Plains(events) == [Plain(first)] + Plains(events[1..]);
    }
  }

  /** A byte completes an event only as a line feed that ends a blank line. */
  lemma {:induction false} OneMoreByte(s: string, c: char)
    ensures if c == '\n' && DropCR(Rest(s)) == "" && SplitEvents(Lines(s)).open != []
            then && SplitEvents(Lines(s + [c])) == Split(CompleteEvents(s) + [SplitEvents(Lines(s)).open], [])
                 && Rest(s + [c]) == ""
            else CompleteEvents(s + [c]) == CompleteEvents(s)
  {
    hide Lines, Rest, NewlineAt, DropCR;
    LinesSplit(s, [c]);
    RestHasNoNewline(s);
    var r := Rest(s);
    if c == '\n' {
      FirstNewline(r + [c], |r|);
      UnfoldLines(r + [c]);
      assert (r + [c])[..|r|] == r && (r + [c])[|r| + 1..] == "";
      UnfoldLines("");
      assert NewlineAt("") == 0;
      assert Lines(s + [c]) == Lines(s) + [DropCR(r)];
      assert Lines(s + [c])[..|Lines(s)|] == Lines(s);
    } else {
      NoFeed(r + [c]);
      UnfoldLines(r + [c]);
      assert Lines(s) + [] == Lines(s);
    }
  }

  /** Only the last complete event heard may carry `[DONE]`; if it does it ends what is heard. */
  lemma {:induction false} HeardEvents(h: string)
    requires h == "" || !SaysDone(h[..|h| - 1])
    ensures forall i :: 0 <= i < |CompleteEvents(h)| - 1 ==> !Carries(CompleteEvents(h)[i])
    ensures SaysDone(h) ==>
              && CompleteEvents(h) != [] && Carries(CompleteEvents(h)[|CompleteEvents(h)| - 1])
              && LastEvent(h) == [] && SplitEvents(Lines(h)).open == [] && Rest(h) == ""
  {
    hide Lines, Rest, Carries, SplitEvents, DropCR;
    if h == "" {
      NothingSplit();
    } else {
      var s := h[..|h| - 1];
      assert h == s + [h[|h| - 1]];
      OneMoreByte(s, h[|h| - 1]);
    }
  }

  lemma {:induction false} NothingSplit()
    ensures CompleteEvents("") == []
  {
  }

  /** When no event heard is an error and no write fails, every byte other than line ends
      reaches the client, in order, up to the end of the first event that carries
      `[DONE]`, if and only if what is heard does not end in lines that are dropped. */
  lemma {:induction false} BytesConserved(input: string, end: End, env: Env)
    requires PassedThrough(input, end, env)
    ensures Visible(Concat(Copied(input, end, env).frames)) == Visible(Heard(input)) <==> !DropsLines(Heard(input))
  {
    hide Visible, Lines, SplitEvents, AnyField, Rest, Plains, Plain, Frame, Concat, DropCR, Heard, Finish, IsErrorEvent, Carries, Deliver;
    var h := Heard(input);
    var events, open, tail := CompleteEvents(h), SplitEvents(Lines(h)).open, Rest(h);
    HeardEvents(h);
    VisibleLines(h);
    VisibleEvents(Lines(h));
    CopiesHeard(input, end, env);
    var v, vo, vt := Visible(Concat(Plains(events))), Visible(Concat(open)), Visible(tail);
    assert Visible(h) == v + vo + vt;
    var frames := Copied(input, end, env).frames;
    if SaysDone(h) {
      VisibleNone();
      assert v + "" + "" == v;
    } else if !AnyField(Lines(h)) && tail != "" {
      LastRawBytes(Plains(events), open, tail, end, env);
      assert |v + vt| == |v + vo + vt| <==> vo == "";
      assert vo == "" ==> v + vo + vt == v + vt;
    } else {
      LastEventBytes(Plains(events), open, AnyField(Lines(h)), tail, end, env);
    }
  }

  /** What is written depends on what is heard alone. */
  lemma {:induction false} CopiesHeard(input: string, end: End, env: Env)
    requires PassedThrough(input, end, env)
    ensures var h := Heard(input);
            Copied(input, end, env).frames ==
              if SaysDone(h) then Plains(CompleteEvents(h))
              else Finish(Plains(CompleteEvents(h)), SplitEvents(Lines(h)).open, AnyField(Lines(h)), Rest(h), end, env).frames
  {
    hide Lines, SplitEvents, AnyField, Rest, Plains, Heard, Finish, IsErrorEvent, Carries, Deliver;
    var h := Heard(input);
    var events := CompleteEvents(h);
    HeardEvents(h);
    DeliveredFirst(h, input, end, env);
    DeliverPlain(events, 0, env);
    if SaysDone(h) {
      assert input == h + input[|h|..];
      LinesExtend(h, input[|h|..]);
      StoppedForGood(Lines(h), input, end, env);
    }
  }

  /** The frames of a prefix are among those of the body. */
  lemma {:induction false} DeliveredFirst(h: string, input: string, end: End, env: Env)
    requires h <= input
    requires forall i :: 0 <= i < |Copied(input, end, env).frames| ==> env.accepts(i)
    ensures forall i :: 0 <= i < |Deliver(CompleteEvents(h), 0, env).frames| ==> env.accepts(i)
  {
    hide Lines, SplitEvents, AnyField, Rest, Deliver;
    assert input == h + input[|h|..];
    LinesExtend(h, input[|h|..]);
    var lines := Lines(input);
    assert lines == Lines(h) + lines[|Lines(h)|..];
    SplitExtends(Lines(h), lines[|Lines(h)|..]);
    var a, b := CompleteEvents(h), CompleteEvents(input);
    assert b == a + b[|a|..];
    DeliverSplit(a, b[|a|..], 0, env);
    DeliveredIsCopied(input, end, env);
  }

  lemma {:induction false} DeliveredIsCopied(input: string, end: End, env: Env)
    ensures |Deliver(CompleteEvents(input), 0, env).frames| <= |Copied(input, end, env).frames|
  {
    hide Deliver, Frame;
  }

  lemma {:induction false} LastRawBytes(sent: seq<string>, open: seq<string>, tail: string, end: End, env: Env)
    requires tail != "" && !env.isErrorPayload(tail)
    ensures Visible(Concat(Finish(sent, open, false, tail, end, env).frames)) == Visible(Concat(sent)) + Visible(tail)
  {
    hide Visible, Concat;
    VisibleSnoc(sent, tail);
  }

  lemma {:induction false} LastEventBytes(sent: seq<string>, open: seq<string>, sawField: bool, tail: string, end: End, env: Env)
    requires sawField || tail == ""
    requires var last := open + if tail == "" then [] else [DropCR(tail)]; last != [] ==> !IsErrorEvent(last, env)
    ensures Visible(Concat(Finish(sent, open, sawField, tail, end, env).frames))
         == Visible(Concat(sent)) + Visible(Concat(open)) + Visible(tail)
  {
    hide Contains, Visible, Concat, IsErrorEvent, Plain, DropCR;
    VisibleNone();
    var open' := if tail == "" then open else open + [DropCR(tail)];
    assert open' == open + if tail == "" then [] else [DropCR(tail)];
    VisibleDropCR(tail);
    VisibleSnoc(open, DropCR(tail));
    if open' != [] {
      VisiblePlain(open');
      VisibleSnoc(sent, Plain(open'));
    }
  }

  /** Two lines of plain text, the second unfinished: the first is lost. */
  lemma {:induction false} PlainTextLosesLines(env: Env)
    requires !env.isErrorPayload("bar")
    ensures Copied("foo\nbar", Eof, env).frames == ["bar"]
  {
    hide Lines, Rest, SplitEvents, NewlineAt, AnyField, DropCR;
    TwoLines();
    OneOpenLine();
  }

  lemma {:induction false} TwoLines()
    ensures Lines("foo\nbar") == ["foo"] && Rest("foo\nbar") == "bar"
  {
    hide Lines, Rest, NewlineAt, DropCR;
    var s := "foo\nbar";
    FirstNewline(s, 3);
    UnfoldLines(s);
    assert s[..3] == "foo" && s[4..] == "bar";
    NoFeed("bar");
    UnfoldLines("bar");
    FooHasNoCR();
  }

  lemma {:induction false} FooHasNoCR()
    ensures DropCR("foo") == "foo"
  {
    assert "foo"[2..][0] == 'o';
  }

  lemma {:induction false} OneOpenLine()
    ensures SplitEvents(["foo"]) == Split([], ["foo"]) && !AnyField(["foo"])
  {
    assert ["foo"][..0] == [];
    assert "foo"[..1][0] == 'f';
    assert !IsField("foo");
  }
}
