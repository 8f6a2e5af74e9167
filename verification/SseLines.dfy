/** Lines of a byte stream, as both SSE readers cut it: a line ends at a line feed,
    and one carriage return before the line feed is dropped. */
module SseLines {
  import opened Strings

  function NewlineAt(s: string): (i: nat)
    ensures i <= |s|
    ensures i < |s| ==> s[i] == '\n'
    ensures forall j :: 0 <= j < i ==> s[j] != '\n'
  {
    if s == "" || s[0] == '\n' then 0 else 1 + NewlineAt(s[1..])
  }

  function DropCR(line: string): string {
    TrimSuffix(line, "\r")
  }

  /** The lines that are complete in `s`. */
  function Lines(s: string): seq<string> {
    var i := NewlineAt(s);
    if i == |s| then [] else [DropCR(s[..i])] + Lines(s[i + 1..])
  }

  /** What follows the last line feed. */
  function Rest(s: string): string {
    var i := NewlineAt(s);
    if i == |s| then s else Rest(s[i + 1..])
  }

  lemma {:induction false} UnfoldLines(s: string)
    ensures var i := NewlineAt(s);
            if i == |s| then Lines(s) == [] && Rest(s) == s
            else Lines(s) == [DropCR(s[..i])] + Lines(s[i + 1..]) && Rest(s) == Rest(s[i + 1..])
  {
  }

  /** More input adds lines to those already complete, beginning with the unfinished rest. */
  lemma {:induction false} LinesSplit(a: string, b: string)
    ensures Lines(a + b) == Lines(a) + Lines(Rest(a) + b)
    ensures Rest(a + b) == Rest(Rest(a) + b)
  {
    hide Lines, Rest, DropCR, NewlineAt;
    var i := NewlineAt(a);
    UnfoldLines(a);
    if i == |a| {
      assert [] + Lines(a + b) == Lines(a + b);
    } else {
      FirstNewline(a + b, i);
      UnfoldLines(a + b);
      assert (a + b)[..i] == a[..i];
      assert (a + b)[i + 1..] == a[i + 1..] + b;
      LinesSplit(a[i + 1..], b);
    }
  }

  lemma {:induction false} FirstNewline(s: string, i: nat)
    requires i < |s| && s[i] == '\n' && forall j :: 0 <= j < i ==> s[j] != '\n'
    ensures NewlineAt(s) == i
  {
  }

  lemma {:induction false} NoFeed(s: string)
    requires forall i :: 0 <= i < |s| ==> s[i] != '\n'
    ensures NewlineAt(s) == |s|
  {
  }

  lemma {:induction false} RestHasNoNewline(s: string)
    ensures NewlineAt(Rest(s)) == |Rest(s)|
  {
    hide Lines, Rest, NewlineAt;
    UnfoldLines(s);
    var i := NewlineAt(s);
    if i < |s| {
      RestHasNoNewline(s[i + 1..]);
    }
  }
}
