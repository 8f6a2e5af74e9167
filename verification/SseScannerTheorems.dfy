/** Scanning undoes writing, for exactly the payloads that fit on one data line. */
module SseScannerTheorems {
  import opened Strings
  import opened SseLines
  import opened SseCopy
  import opened SseScanner

  /** Non-empty, without a line feed, and not ending in a carriage return. */
  predicate OneLine(p: string) {
    p != "" && NewlineAt(p) == |p| && !HasSuffix(p, "\r")
  }

  // ----- lines of what was written -----

  /** Every line of `s` is short enough. */
  predicate Fits(s: string) {
    var i := NewlineAt(s);
    i < MAX_LINE && (i < |s| ==> Fits(s[i + 1..]))
  }

  lemma {:induction false} FittingLines(s: string)
    requires Fits(s) && Rest(s) == ""
    ensures ScanLines(s) == Cut(Lines(s), false)
  {
    var i := NewlineAt(s);
    if i < |s| {
      FittingLines(s[i + 1..]);
    }
  }

  lemma {:induction false} FitsSplit(a: string, b: string)
    requires Rest(a) == ""
    ensures Fits(a + b) <==> Fits(a) && Fits(b)
  {
    var i := NewlineAt(a);
    if i < |a| {
      FirstNewline(a + b, i);
      assert (a + b)[i + 1..] == a[i + 1..] + b;
      FitsSplit(a[i + 1..], b);
    } else {
      assert a + b == b;
    }
  }

  /** Lines that fit are scanned, and the scan goes on behind them. */
  lemma {:induction false} FittingFront(a: string, b: string)
    requires Fits(a) && Rest(a) == ""
    ensures ScanLines(a + b).lines == Lines(a) + ScanLines(b).lines
  {
    hide Lines, Rest, ScanLines, DropCR, NewlineAt;
    var i := NewlineAt(a);
    UnfoldLines(a);
    if i < |a| {
      FirstNewline(a + b, i);
      ScanNext(a + b);
      assert (a + b)[i + 1..] == a[i + 1..] + b && (a + b)[..i] == a[..i];
      FittingFront(a[i + 1..], b);
    } else {
      assert a + b == b;
    }
  }

  /** A line that does not fit ends the scan. */
  lemma {:induction false} MisfitFront(a: string, b: string)
    requires !Fits(a) && Rest(a) == ""
    ensures ScanLines(a + b).lines <= Lines(a)
  {
    hide Lines, Rest, ScanLines, DropCR, NewlineAt;
    var i := NewlineAt(a);
    UnfoldLines(a);
    if i < |a| {
      FirstNewline(a + b, i);
      ScanNext(a + b);
      assert (a + b)[i + 1..] == a[i + 1..] + b && (a + b)[..i] == a[..i];
      if i < MAX_LINE {
        MisfitFront(a[i + 1..], b);
      }
    }
  }

  lemma {:induction false} ShortFits(s: string)
    requires |s| < MAX_LINE
    ensures Fits(s)
  {
    var i := NewlineAt(s);
    if i < |s| {
      ShortFits(s[i + 1..]);
    }
  }

  lemma {:induction false} RestOfClosed(s: string)
    ensures Rest(s + "\n") == "" && Lines(s + "\n") == Lines(s) + [DropCR(Rest(s))]
  {
    hide Lines, Rest, DropCR, NewlineAt;
    LinesSplit(s, "\n");
    RestHasNoNewline(s);
    var r := Rest(s);
    FirstNewline(r + "\n", |r|);
    UnfoldLines(r + "\n");
    assert (r + "\n")[..|r|] == r && (r + "\n")[|r| + 1..] == "";
    UnfoldLines("");
  }

  lemma {:induction false} NoCarriageReturn()
    ensures DropCR("") == ""
  {
  }

  /** The lines of one event are those of its text and a blank one. */
  lemma {:induction false} EventLines(p: string)
    ensures Lines(Event(p)) == Lines("data: " + p) + [DropCR(Rest("data: " + p)), ""]
    ensures Rest(Event(p)) == ""
  {
    hide Lines, Rest, DropCR;
    var s := "data: " + p;
    RestOfClosed(s);
    RestOfClosed(s + "\n");
    assert Event(p) == s + "\n" + "\n";
    NoCarriageReturn();
    assert Lines(s) + [DropCR(Rest(s))] + [""] == Lines(s) + [DropCR(Rest(s)), ""];
  }

  lemma {:induction false} FitsClosed(s: string)
    requires Fits(s)
    ensures Fits(s + "\n")
  {
    var i := NewlineAt(s);
    FirstNewline(s + "\n", i);
    if i < |s| {
      assert (s + "\n")[i + 1..] == s[i + 1..] + "\n";
      FitsClosed(s[i + 1..]);
    } else {
      assert (s + "\n")[i + 1..] == "";
    }
  }

  lemma {:induction false} EventFits(p: string)
    requires |p| + 6 < MAX_LINE
    ensures Fits(Event(p))
  {
    ShortFits("data: " + p);
    FitsClosed("data: " + p);
    FitsClosed("data: " + p + "\n");
    assert Event(p) == "data: " + p + "\n" + "\n";
  }

  // ----- scanning a concatenation -----

  lemma {:induction false} ScanSplit(sc: Scan, a: seq<string>, b: seq<string>)
    ensures ScanAll(sc, a + b) == ScanAll(ScanAll(sc, a), b)
    decreases |b|
  {
    if b == [] {
      assert a + b == a;
    } else {
      assert (a + b)[..|a + b| - 1] == a + b[..|b| - 1];
      ScanSplit(sc, a, b[..|b| - 1]);
    }
  }

  lemma {:induction false} ScanOne(sc: Scan, line: string)
    ensures ScanAll(sc, [line]) == ScanLine(sc, line)
  {
    assert [line][..0] == [];
    assert ScanAll(sc, [line][..0]) == sc;
  }

  /** A blank line closes the event. */
  lemma {:induction false} BlankCloses(sc: Scan, lines: seq<string>)
    ensures ScanAll(sc, lines + [""]).dataLines == []
  {
    ScanSplit(sc, lines, [""]);
    ScanOne(ScanAll(sc, lines), "");
  }

  lemma {:induction false} NothingWritten()
    ensures Fits("") && Rest("") == "" && Lines("") == [] && ScanAll(START, []) == START
  {
  }

  /** The lines of everything written; each event ends closed. */
  lemma {:induction false} WrittenLines(ps: seq<string>)
    ensures Rest(Written(ps)) == "" && ScanAll(START, Lines(Written(ps))).dataLines == []
    ensures ps != [] ==> Lines(Written(ps)) == Lines(Written(ps[..|ps| - 1])) + Lines(Event(ps[|ps| - 1]))
  {
    hide Lines, Rest, Fits, ScanAll, DropCR, Event;
    NothingWritten();
    if ps != [] {
      var init, p := ps[..|ps| - 1], ps[|ps| - 1];
      WrittenLines(init);
      LinesSplit(Written(init), Event(p));
      assert "" + Event(p) == Event(p);
      EventLines(p);
      var text := Lines("data: " + p) + [DropCR(Rest("data: " + p))];
      assert Lines(Event(p)) == text + [""];
      ScanSplit(START, Lines(Written(init)), Lines(Event(p)));
      BlankCloses(ScanAll(START, Lines(Written(init))), text);
    }
  }

  lemma {:induction false} WrittenFits(ps: seq<string>)
    ensures Fits(Written(ps)) <==> forall p :: p in ps ==> Fits(Event(p))
  {
    hide Fits, Event;
    NothingWritten();
    if ps != [] {
      var init, p := ps[..|ps| - 1], ps[|ps| - 1];
      assert ps == init + [p];
      WrittenFits(init);
      WrittenLines(init);
      FitsSplit(Written(init), Event(p));
    }
  }

  // ----- weights: scanning never gains, and loses on a payload that is not one line -----

  function Weight(ps: seq<string>): nat {
    if ps == [] then 0 else Weight(ps[..|ps| - 1]) + |ps[|ps| - 1]| + 1
  }

  function DataWeight(lines: seq<string>): nat {
    if lines == [] then 0 else
    var line := lines[|lines| - 1];
    DataWeight(lines[..|lines| - 1]) + if HasPrefix(line, "data:") then |FieldValue(line)| + 1 else 0
  }

  lemma {:induction false} WeightSnoc(ps: seq<string>, p: string)
    ensures Weight(ps + [p]) == Weight(ps) + |p| + 1
  {
    assert (ps + [p])[..|ps|] == ps;
  }

  lemma {:induction false} JoinWeight(parts: seq<string>)
    ensures |Join(parts, "\n")| + (if parts == [] then 0 else 1) == Weight(parts)
  {
    if |parts| > 1 {
      JoinWeight(parts[..|parts| - 1]);
    } else if |parts| == 1 {
      assert parts[..0] == [];
    }
  }

  lemma {:induction false} EmitWeight(sc: Scan)
    ensures Weight(Emit(sc).payloads) <= Weight(sc.payloads) + Weight(sc.dataLines)
  {
    JoinWeight(sc.dataLines);
    WeightSnoc(sc.payloads, Join(sc.dataLines, "\n"));
  }

  lemma {:induction false} ScanWeight(sc: Scan, lines: seq<string>)
    ensures var sc' := ScanAll(sc, lines);
            Weight(sc'.payloads) + Weight(sc'.dataLines) <= Weight(sc.payloads) + Weight(sc.dataLines) + DataWeight(lines)
  {
    if lines != [] {
      var init, line := lines[..|lines| - 1], lines[|lines| - 1];
      ScanWeight(sc, init);
      var mid := ScanAll(sc, init);
      EmitWeight(mid);
      if HasPrefix(line, "data:") {
        WeightSnoc(mid.dataLines, FieldValue(line));
      }
    }
  }

  lemma {:induction false} DataWeightSplit(a: seq<string>, b: seq<string>)
    ensures DataWeight(a + b) == DataWeight(a) + DataWeight(b)
    decreases |b|
  {
    if b == [] {
      assert a + b == a;
    } else {
      assert (a + b)[..|a + b| - 1] == a + b[..|b| - 1];
      DataWeightSplit(a, b[..|b| - 1]);
    }
  }

  lemma {:induction false} DataWeightOne(line: string)
    ensures DataWeight([line]) == if HasPrefix(line, "data:") then |FieldValue(line)| + 1 else 0
    ensures DataWeight([line]) <= |line|
  {
    assert [line][..0] == [];
    assert DataWeight([line][..0]) == 0;
  }

  /** Complete lines weigh no more than their bytes, not counting their line feeds. */
  lemma {:induction false} LinesWeight(s: string)
    ensures DataWeight(Lines(s)) + |Lines(s)| + |Rest(s)| <= |s|
  {
    var i := NewlineAt(s);
    if i < |s| {
      LinesWeight(s[i + 1..]);
      DataWeightSplit([DropCR(s[..i])], Lines(s[i + 1..]));
      DataWeightOne(DropCR(s[..i]));
    }
  }

  // ----- one event -----

  lemma {:induction false} TextNewline(p: string)
    ensures var i := NewlineAt(p); NewlineAt("data: " + p) == i + 6
  {
    var i, s := NewlineAt(p), "data: " + p;
    assert forall j :: 6 <= j < i + 6 ==> s[j] == p[j - 6];
    assert forall j :: 0 <= j < 6 ==> s[j] != '\n';
    if i < |p| {
      FirstNewline(s, i + 6);
    } else {
      NoFeed(s);
    }
  }

  lemma {:induction false} DataField(text: string)
    ensures HasPrefix("data: " + text, "data:") && FieldValue("data: " + text) == text
  {
    var s := "data: " + text;
    assert s[..5] == "data:" && s[5..] == " " + text;
    assert (" " + text)[..1] == " " && (" " + text)[1..] == text;
  }

  lemma {:induction false} ClosedScan(sc: Scan, line: string)
    requires sc.dataLines == [] && line != ""
    ensures ScanAll(sc, [line, ""]) == Emit(ScanLine(sc, line))
  {
    assert [line, ""] == [line] + [""];
    ScanSplit(sc, [line], [""]);
    ScanOne(sc, line);
    ScanOne(ScanLine(sc, line), "");
  }

  /** A payload without line feeds comes back, less a final carriage return; an empty one does not. */
  lemma {:induction false} OneLineEvent(sc: Scan, p: string)
    requires sc.dataLines == [] && NewlineAt(p) == |p|
    ensures var kept := if HasSuffix(p, "\r") then p[..|p| - 1] else p;
            ScanAll(sc, Lines(Event(p))) == Scan(if kept == "" then sc.payloads else sc.payloads + [kept], [])
  {
    var s := "data: " + p;
    var kept := if HasSuffix(p, "\r") then p[..|p| - 1] else p;
    TextNewline(p);
    EventLines(p);
    assert [] + [DropCR(s), ""] == [DropCR(s), ""];
    assert DropCR(s) == "data: " + kept by { DropLast(p); }
    DataField(kept);
    ClosedScan(sc, DropCR(s));
    assert [] + [kept] == [kept];
  }

  lemma {:induction false} DropLast(p: string)
    ensures DropCR("data: " + p) == "data: " + if HasSuffix(p, "\r") then p[..|p| - 1] else p
  {
    var s := "data: " + p;
    if p == "" {
      assert s[|s| - 1..] == " ";
    } else {
      assert s[|s| - 1..] == p[|p| - 1..];
      assert s[..|s| - 1] == "data: " + p[..|p| - 1];
    }
  }

  lemma {:induction false} HeadWeight(head: string)
    ensures DataWeight([DropCR("data: " + head)]) <= |head| + 1
  {
    DropLast(head);
    var kept := if HasSuffix(head, "\r") then head[..|head| - 1] else head;
    DataField(kept);
    DataWeightOne(DropCR("data: " + head));
  }

  lemma {:induction false} TailWeight(t: string)
    ensures DataWeight(Lines(t + "\n\n")) <= |t|
  {
    LinesWeight(t + "\n\n");
    RestOfClosed(t);
    RestOfClosed(t + "\n");
    assert t + "\n\n" == t + "\n" + "\n";
  }

  /** A payload with a line feed weighs less after the scan. */
  lemma {:induction false} MultiLineWeight(p: string)
    requires NewlineAt(p) < |p|
    ensures DataWeight(Lines(Event(p))) <= |p|
  {
    hide DropCR, DataWeight, HasSuffix;
    var i := NewlineAt(p);
    var head, t := p[..i], p[i + 1..];
    TextNewline(p);
    FirstNewline(Event(p), i + 6);
    assert Event(p)[..i + 6] == "data: " + head && Event(p)[i + 7..] == t + "\n\n";
    DataWeightSplit([DropCR("data: " + head)], Lines(t + "\n\n"));
    HeadWeight(head);
    TailWeight(t);
  }

  lemma {:induction false} EventWeight(sc: Scan, p: string)
    requires sc.dataLines == []
    ensures var sc' := ScanAll(sc, Lines(Event(p)));
            && sc'.dataLines == []
            && (if OneLine(p) then sc'.payloads == sc.payloads + [p] else Weight(sc'.payloads) < Weight(sc.payloads) + |p| + 1)
  {
    if NewlineAt(p) == |p| {
      OneLineEvent(sc, p);
      var kept := if HasSuffix(p, "\r") then p[..|p| - 1] else p;
      WeightSnoc(sc.payloads, kept);
    } else {
      MultiLineWeight(p);
      ScanWeight(sc, Lines(Event(p)));
      EventLines(p);
      var text := Lines("data: " + p) + [DropCR(Rest("data: " + p))];
      assert Lines(Event(p)) == text + [""];
      BlankCloses(sc, text);
    }
  }

  // ----- all events -----

  lemma {:induction false} ScanWritten(ps: seq<string>)
    ensures var sc := ScanAll(START, Lines(Written(ps)));
            && sc.dataLines == []
            && (if forall p :: p in ps ==> OneLine(p) then sc.payloads == ps else Weight(sc.payloads) < Weight(ps))
  {
    if ps == [] {
      return;
    }
    hide OneLine, Lines, Weight, ScanAll, Written;
    var init, p := ps[..|ps| - 1], ps[|ps| - 1];
    assert ps == init + [p];
    ScanWritten(init);
    WrittenLines(ps);
    var sc := ScanAll(START, Lines(Written(init)));
    ScanSplit(START, Lines(Written(init)), Lines(Event(p)));
    EventWeight(sc, p);
    WeightSnoc(init, p);
    WeightSnoc(sc.payloads, p);
  }

  lemma {:induction false} OneLineFitsIff(p: string)
    requires OneLine(p)
    ensures Fits(Event(p)) <==> |p| + 6 < MAX_LINE
  {
    hide Fits;
    EventNewline(p);
    if |p| + 6 < MAX_LINE {
      EventFits(p);
    }
    MisfitAtOnce(Event(p));
  }

  lemma {:induction false} MisfitAtOnce(s: string)
    ensures NewlineAt(s) >= MAX_LINE ==> !Fits(s)
  {
  }

  lemma {:induction false} EventNewline(p: string)
    ensures NewlineAt(Event(p)) == NewlineAt(p) + 6
  {
    var i := NewlineAt(p);
    TextNewline(p);
    assert Event(p)[..i + 6] == ("data: " + p)[..i + 6];
    FirstNewline(Event(p), i + 6);
  }

  /** An event that does not fit yields less than its payload, whatever comes behind it. */
  lemma {:induction false} MisfitWeight(p: string, b: string)
    requires !Fits(Event(p))
    ensures DataWeight(ScanLines(Event(p) + b).lines) <= |p|
  {
    hide Fits, Lines, DataWeight, Event, ScanLines;
    EventLines(p);
    MisfitFront(Event(p), b);
    var seen, lines := ScanLines(Event(p) + b).lines, Lines(Event(p));
    if NewlineAt(p) == |p| {
      TooLongAtOnce(p, b);
      NoWeight();
    } else {
      MultiLineWeight(p);
      assert lines == seen + lines[|seen|..];
      DataWeightSplit(seen, lines[|seen|..]);
    }
  }

  lemma {:induction false} NoWeight()
    ensures DataWeight([]) == 0
  {
  }

  lemma {:induction false} TooLongAtOnce(p: string, b: string)
    requires NewlineAt(p) == |p| && !Fits(Event(p))
    ensures ScanLines(Event(p) + b).lines == []
  {
    if |p| + 6 < MAX_LINE {
      EventFits(p);
    } else {
      EventNewline(p);
      FirstNewline(Event(p) + b, |p| + 6);
    }
  }

  /** What was written ends before, in or behind the event `ps[k]`. */
  lemma {:induction false} WrittenAround(ps: seq<string>, k: nat) returns (tail: string)
    requires k < |ps|
    ensures Written(ps) == Written(ps[..k]) + (Event(ps[k]) + tail)
    ensures Weight(ps[..k]) + |ps[k]| + 1 <= Weight(ps)
  {
    hide Event;
    var init := ps[..|ps| - 1];
    if k == |ps| - 1 {
      tail := "";
    } else {
      assert init[..k] == ps[..k];
      tail := WrittenAround(init, k);
      tail := tail + Event(ps[|ps| - 1]);
    }
  }

  lemma {:induction false} FirstMisfit(ps: seq<string>) returns (k: nat)
    requires !Fits(Written(ps))
    ensures k < |ps| && Fits(Written(ps[..k])) && !Fits(Event(ps[k]))
  {
    hide Fits, Event;
    NothingWritten();
    var init := ps[..|ps| - 1];
    if Fits(Written(init)) {
      k := |ps| - 1;
      WrittenLines(init);
      FitsSplit(Written(init), Event(ps[k]));
    } else {
      k := FirstMisfit(init);
      assert init[..k] == ps[..k];
    }
  }

  /** When a line is too long, less comes back than was written. */
  lemma {:induction false} MisfitLoses(ps: seq<string>)
    requires !Fits(Written(ps))
    ensures Weight(Payloads(Written(ps))) < Weight(ps)
  {
    hide Fits, Lines, Weight, ScanAll, Written, ScanLines, Event, Emit, OneLine, DataWeight;
    var k := FirstMisfit(ps);
    var front := Written(ps[..k]);
    var tail := WrittenAround(ps, k);
    WrittenLines(ps[..k]);
    FittingFront(front, Event(ps[k]) + tail);
    MisfitWeight(ps[k], tail);
    ScanWritten(ps[..k]);
    var sc, seen := ScanAll(START, Lines(front)), ScanLines(Event(ps[k]) + tail).lines;
    ScanSplit(START, Lines(front), seen);
    ScanWeight(sc, seen);
    EmitWeight(ScanAll(sc, seen));
    NothingWeighs();
  }

  lemma {:induction false} NothingWeighs()
    ensures Weight([]) == 0
  {
  }

  /** What is passed on when every line fits is what the scan of the lines has collected. */
  lemma {:induction false} FittingPayloads(ps: seq<string>)
    requires Fits(Written(ps))
    ensures Payloads(Written(ps)) == ScanAll(START, Lines(Written(ps))).payloads && !ScanLines(Written(ps)).tooLong
  {
    hide Fits, Lines, ScanAll, Written, ScanLines;
    WrittenLines(ps);
    FittingLines(Written(ps));
  }

  /** Scanning what was written returns exactly the payloads, in order, if and only if
      every payload is non-empty, has no line feed, does not end in a carriage return and is
      short enough for the scanner's buffer. Nothing else but a long line stops the scanner. */
  lemma {:induction false} ScanUndoesWrite(ps: seq<string>)
    ensures Payloads(Written(ps)) == ps <==> forall p :: p in ps ==> OneLine(p) && |p| + 6 < MAX_LINE
    ensures (forall p :: p in ps ==> |p| + 6 < MAX_LINE) ==> !ScanLines(Written(ps)).tooLong
  {
    hide Fits, OneLine, Payloads, Written, Event, ScanLines, ScanAll;
    WrittenFits(ps);
    forall p | p in ps ensures OneLine(p) ==> (Fits(Event(p)) <==> |p| + 6 < MAX_LINE) {
      if OneLine(p) {
        OneLineFitsIff(p);
      }
    }
    forall p | p in ps && |p| + 6 < MAX_LINE ensures Fits(Event(p)) {
      EventFits(p);
    }
    if Fits(Written(ps)) {
      FittingPayloads(ps);
      ScanWritten(ps);
    } else {
      MisfitLoses(ps);
    }
  }

  // ----- several data lines, comments, keep-alives -----

  function DataFields(parts: seq<string>): seq<string> {
    seq(|parts|, i requires 0 <= i < |parts| => "data: " + parts[i])
  }

  lemma {:induction false} CollectParts(sc: Scan, parts: seq<string>)
    ensures ScanAll(sc, DataFields(parts)) == sc.(dataLines := sc.dataLines + parts)
  {
    if parts == [] {
      assert sc.dataLines + [] == sc.dataLines;
    } else {
      var init, part := parts[..|parts| - 1], parts[|parts| - 1];
      assert DataFields(parts)[..|parts| - 1] == DataFields(init);
      CollectParts(sc, init);
      DataField(part);
      assert sc.dataLines + init + [part] == sc.dataLines + parts;
    }
  }

  /** An event sent as several data lines is passed on as one payload, joined by line feeds. */
  lemma {:induction false} DataLinesReassemble(sc: Scan, parts: seq<string>)
    requires sc.dataLines == [] && Join(parts, "\n") != ""
    ensures ScanAll(sc, DataFields(parts) + [""]) == Scan(sc.payloads + [Join(parts, "\n")], [])
  {
    CollectParts(sc, parts);
    ScanSplit(sc, DataFields(parts), [""]);
    ScanOne(sc.(dataLines := parts), "");
    assert [] + parts == parts;
  }

  function WithoutComments(lines: seq<string>): seq<string> {
    if lines == [] then [] else
    var line := lines[|lines| - 1];
    WithoutComments(lines[..|lines| - 1]) + if HasPrefix(line, ":") then [] else [line]
  }

  /** Comment lines, wherever they stand, change nothing. */
  lemma {:induction false} CommentsIgnored(sc: Scan, lines: seq<string>)
    ensures ScanAll(sc, WithoutComments(lines)) == ScanAll(sc, lines)
  {
    if lines != [] {
      var init, line := lines[..|lines| - 1], lines[|lines| - 1];
      CommentsIgnored(sc, init);
      if HasPrefix(line, ":") {
        assert WithoutComments(lines) == WithoutComments(init);
        PrefixHead(line, ":");
        LineEffect(ScanAll(sc, init), line);
      } else {
        ScanSplit(sc, WithoutComments(init), [line]);
        ScanOne(ScanAll(sc, init), line);
      }
    }
  }

  lemma {:induction false} NonEmptyScan(sc: Scan, lines: seq<string>)
    requires forall p :: p in sc.payloads ==> p != ""
    ensures forall p :: p in ScanAll(sc, lines).payloads ==> p != ""
  {
    if lines != [] {
      NonEmptyScan(sc, lines[..|lines| - 1]);
    }
  }

  /** No call-back ever gets an empty payload. */
  lemma {:induction false} NoEmptyPayload(input: string)
    ensures forall p :: p in Payloads(input) ==> p != ""
  {
    NonEmptyScan(START, ScanLines(input).lines);
  }
}
