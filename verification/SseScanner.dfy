/** The SSE reader that joins the data lines of each event, and the writer it undoes
    (backend/internal/proxy/sse_scanner.go and stream_writer.go). */
module SseScanner {
  import opened Strings
  import opened SseLines
  import opened SseCopy

  /** A line of this many bytes, carriage return included, is too long for the scanner. */
  const MAX_LINE := 10_485_760

  datatype Cut = Cut(lines: seq<string>, tooLong: bool)

  /** `bufio.Scanner` with ScanLines: the unfinished last line counts if it is not empty. */
  function ScanLines(s: string): Cut {
    var i := NewlineAt(s);
    if s == "" then Cut([], false)
    else if i >= MAX_LINE then Cut([], true)
    else if i == |s| then Cut([DropCR(s)], false)
    else var more := ScanLines(s[i + 1..]); Cut([DropCR(s[..i])] + more.lines, more.tooLong)
  }

  datatype Scan = Scan(payloads: seq<string>, dataLines: seq<string>)

  /** The event is complete: an empty payload is a keep-alive and is not passed on. */
  function Emit(sc: Scan): Scan {
    var payload := Join(sc.dataLines, "\n");
    Scan(if payload == "" then sc.payloads else sc.payloads + [payload], [])
  }

  function ScanLine(sc: Scan, line: string): Scan {
    if line == "" then Emit(sc)
    else if HasPrefix(line, "data:") then sc.(dataLines := sc.dataLines + [FieldValue(line)])
    else sc
  }

  function ScanAll(sc: Scan, lines: seq<string>): Scan {
    if lines == [] then sc else ScanLine(ScanAll(sc, lines[..|lines| - 1]), lines[|lines| - 1])
  }

  const START := Scan([], [])

  /** The payloads passed on for the bytes `input`. */
  function Payloads(input: string): seq<string> {
    Emit(ScanAll(START, ScanLines(input).lines)).payloads
  }

  method EmitEvent(dataLines: seq<string>, sent: seq<string>) returns (payloads: seq<string>)
    ensures Scan(payloads, []) == Emit(Scan(sent, dataLines))
  {
    if |dataLines| == 0 {
      return sent;
    }
    var payload := Join(dataLines, "\n");
    if |payload| == 0 {
      return sent;
    }
    return sent + [payload];
  }

  method ScanStream(input: string) returns (payloads: seq<string>, tooLong: bool)
    ensures payloads == Payloads(input) && tooLong == ScanLines(input).tooLong
  {
    hide ScanLine, Emit, FieldValue, ScanLines, DropCR, NewlineAt;
    payloads, tooLong := [], false;
    var dataLines: seq<string>, rest := [], input;
    ghost var lines: seq<string> := [];
    assert [] + ScanLines(rest).lines == ScanLines(rest).lines;
    while rest != ""
      invariant ScanLines(input).lines == lines + ScanLines(rest).lines
      invariant ScanLines(input).tooLong == ScanLines(rest).tooLong
      invariant ScanAll(START, lines) == Scan(payloads, dataLines)
      decreases |rest|
    {
      ScanNext(rest);
      var i := NewlineAt(rest);
      if i >= MAX_LINE {
        tooLong := true;
        break;
      }
      var line := DropCR(rest[..i]);
      rest := rest[if i < |rest| then i + 1 else i..];
      assert (lines + [line])[..|lines|] == lines;
      lines := lines + [line];
      LineEffect(Scan(payloads, dataLines), line);
      if |line| == 0 {
        payloads := EmitEvent(dataLines, payloads);
        dataLines := [];
        continue;
      }
      if line[0] == ':' {
        continue;
      }
      if HasPrefix(line, "data:") {
        dataLines := dataLines + [FieldValue(line)];
      }
    }
    ScanNext(rest);
    assert lines + [] == lines;
    payloads := EmitEvent(dataLines, payloads);
  }

  lemma {:induction false} ScanNext(s: string)
    ensures var i := NewlineAt(s);
            if s == "" then ScanLines(s) == Cut([], false)
            else if i >= MAX_LINE then ScanLines(s) == Cut([], true)
            else i <= |s| &&
                 var more := ScanLines(s[if i < |s| then i + 1 else i..]);
                 ScanLines(s) == Cut([DropCR(s[..i])] + more.lines, more.tooLong)
  {
    var i := NewlineAt(s);
    if i == |s| {
      assert s[..i] == s && s[i..] == "";
    }
  }

  lemma {:induction false} LineEffect(sc: Scan, line: string)
    ensures ScanLine(sc, line) ==
              if line == "" then Emit(sc)
              else if line[0] == ':' then sc
              else if HasPrefix(line, "data:") then Scan(sc.payloads, sc.dataLines + [FieldValue(line)])
              else sc
  {
    PrefixHead(line, "data:");
  }

  /** What one `WriteChunk` puts on the wire. */
  function Event(data: string): string {
    "data: " + data + "\n\n"
  }

  class StreamWriter {
    var written: string

    constructor ()
      ensures written == ""
    {
      written := "";
    }

    method WriteChunk(data: string) returns (n: nat)
      modifies this
      ensures written == old(written) + Event(data) && n == |Event(data)|
    {
      written := written + "data: " + data + "\n\n";
      n := |data| + 8;
    }
  }

  /** The wire after one `WriteChunk` per payload. */
  function Written(ps: seq<string>): string {
    if ps == [] then "" else Written(ps[..|ps| - 1]) + Event(ps[|ps| - 1])
  }
}
