/** Repair of a conversation in which tool calls were left without an answer
    (backend/internal/translator/request.go): the list grows while it is scanned. */
module ToolResponses {

  /** `toolCalls` are the ids of the calls an assistant message makes. */
  datatype Message = Message(role: string, toolCalls: seq<string>, toolCallId: string, content: string)

  predicate MakesCalls(m: Message) {
    m.role == "assistant" && m.toolCalls != []
  }

  predicate IsAnswer(m: Message) {
    m.role == "tool" && m.toolCallId != ""
  }

  function Placeholder(id: string): Message {
    Message("tool", [], id, "[No response received]")
  }

  function Placeholders(ids: seq<string>): (r: seq<Message>)
    ensures |r| == |ids|
  {
    seq(|ids|, i requires 0 <= i < |ids| => Placeholder(ids[i]))
  }

  /** How many answers `ms` starts with. */
  function LeadingAnswers(ms: seq<Message>): (n: nat)
    ensures n <= |ms|
    ensures forall i :: 0 <= i < n ==> IsAnswer(ms[i])
    ensures n < |ms| ==> !IsAnswer(ms[n])
  {
    if ms != [] && IsAnswer(ms[0]) then 1 + LeadingAnswers(ms[1..]) else 0
  }

  function AnsweredIds(ms: seq<Message>): set<string> {
    set i | 0 <= i < LeadingAnswers(ms) :: ms[i].toolCallId
  }

  /** The ids that are not in `answered`, in order. */
  function Missing(ids: seq<string>, answered: set<string>): (r: seq<string>)
    ensures forall id :: id in r <==> id in ids && id !in answered
  {
    if ids == [] then []
    else
      var last := ids[|ids| - 1];
      Missing(ids[..|ids| - 1], answered) + if last in answered then [] else [last]
  }

  /** The ids of the first message of `ms` that the answers after it leave open. */
  function MissingAt(ms: seq<Message>): seq<string>
    requires ms != []
  {
    if MakesCalls(ms[0]) then Missing(ms[0].toolCalls, AnsweredIds(ms[1..])) else []
  }

  /** Behind the answers of each message that makes calls, a placeholder per open call. */
  function Fix(ms: seq<Message>): seq<Message> {
    if ms == [] then []
    else if MakesCalls(ms[0]) then
      var n := LeadingAnswers(ms[1..]) + 1;
      ms[..n] + Placeholders(MissingAt(ms)) + Fix(ms[n..])
    else [ms[0]] + Fix(ms[1..])
  }

  /** How many calls have no answer behind them. */
  function OpenCalls(ms: seq<Message>): nat {
    if ms == [] then 0 else |MissingAt(ms)| + OpenCalls(ms[1..])
  }

  // ----- the scan -----

  /** `Fix` one block further, with the block's placeholders named. */
  lemma {:induction false} FixStep(ms: seq<Message>) returns (n: nat, rest: seq<Message>)
    requires ms != []
    ensures n == 1 + if MakesCalls(ms[0]) then LeadingAnswers(ms[1..]) else 0
    ensures n <= |ms| && rest == Fix(ms[n..])
    ensures Fix(ms) == ms[..n] + Placeholders(MissingAt(ms)) + rest
  {
    hide Missing, AnsweredIds;
    n := 1 + if MakesCalls(ms[0]) then LeadingAnswers(ms[1..]) else 0;
    rest := Fix(ms[n..]);
    if !MakesCalls(ms[0]) {
      assert ms[..1] + Placeholders([]) == [ms[0]];
    }
  }

  /** An answer opens nothing. */
  lemma {:induction false} FirstAnswer(ms: seq<Message>)
    requires LeadingAnswers(ms) > 0
    ensures ms != [] && !MakesCalls(ms[0]) && LeadingAnswers(ms) == 1 + LeadingAnswers(ms[1..])
    ensures Placeholders(MissingAt(ms)) == [] && OpenCalls(ms) == OpenCalls(ms[1..])
  {
  }

  lemma {:induction false} AnswersPass(ms: seq<Message>, n: nat)
    requires n <= LeadingAnswers(ms)
    ensures Fix(ms) == ms[..n] + Fix(ms[n..])
  {
    hide MissingAt, Fix, Placeholders, LeadingAnswers, IsAnswer, OpenCalls;
    if n == 0 {
      assert ms[..0] + Fix(ms[0..]) == Fix(ms) by {
        assert ms[0..] == ms;
      }
    } else {
      FirstAnswer(ms);
      AnswersPass(ms[1..], n - 1);
      assert ms[1..][n - 1..] == ms[n..];
      var one, rest := FixStep(ms);
      assert ms[..n] == ms[..1] + [] + ms[1..][..n - 1];
    }
  }

  lemma {:induction false} LeadingAnswersAre(ms: seq<Message>, n: nat)
    requires n <= |ms| && forall i :: 0 <= i < n ==> IsAnswer(ms[i])
    requires n < |ms| ==> !IsAnswer(ms[n])
    ensures LeadingAnswers(ms) == n
  {
  }

  /** Runs over the answers behind message `i`; the next message that is none is where
      placeholders go. */
  method ScanAnswers(ms: seq<Message>, i: nat) returns (answered: set<string>, insertPosition: nat)
    requires i < |ms|
    ensures insertPosition == i + 1 + LeadingAnswers(ms[i + 1..])
    ensures answered == AnsweredIds(ms[i + 1..])
  {
    answered, insertPosition := {}, i + 1;
    while insertPosition < |ms| && IsAnswer(ms[insertPosition])
      invariant i + 1 <= insertPosition <= |ms|
      invariant forall k :: i + 1 <= k < insertPosition ==> IsAnswer(ms[k])
      invariant answered == set k | i + 1 <= k < insertPosition :: ms[k].toolCallId
    {
      answered := answered + {ms[insertPosition].toolCallId};
      insertPosition := insertPosition + 1;
    }
    LeadingAnswersAre(ms[i + 1..], insertPosition - i - 1);
    assert forall k :: i + 1 <= k < insertPosition ==> ms[k] == ms[i + 1..][k - i - 1];
    assert ms[i + 1..][..insertPosition - i - 1] == ms[i + 1..insertPosition];
  }

  method CollectMissing(ids: seq<string>, answered: set<string>) returns (missing: seq<string>)
    ensures missing == Missing(ids, answered)
  {
    missing := [];
    for k := 0 to |ids|
      invariant missing == Missing(ids[..k], answered)
    {
      assert ids[..k + 1][..k] == ids[..k];
      if ids[k] !in answered {
        missing := missing + [ids[k]];
      }
    }
    assert ids[..|ids|] == ids;
  }

  /** With its first call answered, the scan may go on at the very next message. */
  lemma {:induction false} NothingToInsert(ms: seq<Message>)
    requires ms != [] && MissingAt(ms) == []
    ensures Fix(ms) == [ms[0]] + Fix(ms[1..])
  {
    hide Missing, MissingAt, AnsweredIds, Fix, LeadingAnswers;
    var n, rest := FixStep(ms);
    AnswersPass(ms[1..], n - 1);
    assert ms[1..][n - 1..] == ms[n..];
    assert ms[..n] + Placeholders([]) == [ms[0]] + ms[1..][..n - 1];
  }

  /** `fixMissingToolResponsesOpenAI`. */
  method FixMissingToolResponses(messages: seq<Message>) returns (result: seq<Message>)
    ensures result == Fix(messages)
  {
    hide LeadingAnswers, AnsweredIds, Missing, Placeholders, Fix;
    result := messages;
    var i := 0;
    assert messages[0..] == messages;
    while i < |result|
      invariant 0 <= i <= |result|
      invariant result[..i] + Fix(result[i..]) == Fix(messages)
      decreases |result| - i
    {
      var msg := result[i];
      ghost var todo := result[i..];
      var missing, insertPosition := [], i + 1;
      if MakesCalls(msg) {
        var answered;
        answered, insertPosition := ScanAnswers(result, i);
        missing := CollectMissing(msg.toolCalls, answered);
      }
      assert todo[1..] == result[i + 1..];
      assert missing == MissingAt(todo);
      if missing != [] {
        FixInserts(result, i);
        result := result[..insertPosition] + Placeholders(missing) + result[insertPosition..];
        i := insertPosition + |missing| - 1;
      } else {
        NothingToInsert(todo);
        assert result[..i + 1] == result[..i] + [msg];
      }
      i := i + 1;
    }
    assert result[..i] == result && result[i..] == [];
    NothingToFix();
  }

  lemma {:induction false} NothingToFix()
    ensures Fix([]) == []
  {
  }

  lemma {:induction false} FixInserts(ms: seq<Message>, i: nat)
    requires i < |ms| && MissingAt(ms[i..]) != []
    ensures var at := i + 1 + LeadingAnswers(ms[i + 1..]);
            var added := Placeholders(MissingAt(ms[i..]));
            var r := ms[..at] + added + ms[at..];
            ms[..i] + Fix(ms[i..]) == r[..at + |added|] + Fix(r[at + |added|..])
  {
    hide LeadingAnswers, AnsweredIds, Missing, Placeholders, Fix;
    var n, rest := FixStep(ms[i..]);
    var at := i + 1 + LeadingAnswers(ms[i + 1..]);
    var added := Placeholders(MissingAt(ms[i..]));
    assert ms[i..][1..] == ms[i + 1..];
    assert ms[i..][at - i..] == ms[at..];
    assert ms[..at] + added == ms[..i] + (ms[i..][..at - i] + added);
    var r := ms[..at] + added + ms[at..];
    assert r[..at + |added|] == ms[..at] + added && r[at + |added|..] == ms[at..];
  }

  // ----- every call is answered -----

  /** Every call of message `i` is answered in the unbroken run of tool messages behind it. */
  ghost predicate AnsweredAt(ms: seq<Message>, i: nat)
    requires i < |ms|
  {
    MakesCalls(ms[i]) ==> forall id :: id in ms[i].toolCalls ==> exists j :: AnswersAt(ms, i, j, id)
  }

  predicate AnswersAt(ms: seq<Message>, i: nat, j: nat, id: string)
    requires i < |ms|
  {
    i < j < |ms| && ms[j].toolCallId == id && forall k :: i < k <= j ==> ms[k].role == "tool"
  }

  lemma {:induction false} AnsweredBehind(a: seq<Message>, b: seq<Message>, i: nat)
    requires i < |b| && AnsweredAt(b, i)
    ensures AnsweredAt(a + b, |a| + i)
  {
    var c := a + b;
    if MakesCalls(b[i]) {
      forall id | id in b[i].toolCalls ensures exists j {:trigger AnswersAt(c, |a| + i, j, id)} :: AnswersAt(c, |a| + i, j, id) {
        var j: nat :| AnswersAt(b, i, j, id);
        assert forall k :: |a| + i < k <= |a| + j ==> c[k] == b[k - |a|];
        assert AnswersAt(c, |a| + i, |a| + j, id);
      }
    }
  }

  /** Of every list, empty ids included. */
  lemma {:induction false} EveryCallIsAnswered(ms: seq<Message>)
    ensures forall i :: 0 <= i < |Fix(ms)| ==> AnsweredAt(Fix(ms), i)
    decreases |ms|
  {
    hide Fix, LeadingAnswers, MissingAt, AnsweredAt, MakesCalls, Placeholders;
    NothingToFix();
    if ms != [] {
      var r := Fix(ms);
      var n, rest := FixStep(ms);
      var block := ms[..n] + Placeholders(MissingAt(ms));
      EveryCallIsAnswered(ms[n..]);
      forall i | 0 <= i < |r| ensures AnsweredAt(r, i) {
        if i >= |block| {
          AnsweredBehind(block, rest, i - |block|);
        } else {
          InBlock(ms, n, MissingAt(ms), rest, i);
          if i == 0 && MakesCalls(ms[0]) {
            FirstIsAnswered(ms);
          }
        }
      }
    }
  }

  /** Within a block only the first message makes calls. */
  lemma {:induction false} InBlock(ms: seq<Message>, n: nat, open: seq<string>, rest: seq<Message>, i: nat)
    requires ms != [] && n == 1 + (if MakesCalls(ms[0]) then LeadingAnswers(ms[1..]) else 0) && i < n + |open|
    ensures n <= |ms|
    ensures i > 0 ==> AnsweredAt(ms[..n] + Placeholders(open) + rest, i)
    ensures !MakesCalls(ms[0]) ==> AnsweredAt(ms[..n] + Placeholders(open) + rest, 0)
  {
    hide LeadingAnswers;
    var r := ms[..n] + Placeholders(open) + rest;
    if 0 < i < n {
      assert r[i] == ms[1..][i - 1];
    } else if i >= n {
      assert r[i] == Placeholder(open[i - n]);
    }
  }

  lemma {:induction false} AnsweredByRun(ms: seq<Message>, r: seq<Message>, id: string)
    requires ms != [] && id in AnsweredIds(ms[1..])
    requires var n := LeadingAnswers(ms[1..]) + 1; |r| >= n && r[..n] == ms[..n]
    ensures exists j :: AnswersAt(r, 0, j, id)
  {
    var n := LeadingAnswers(ms[1..]) + 1;
    var k :| 0 <= k < n - 1 && ms[1..][k].toolCallId == id;
    assert forall i :: 1 <= i < n ==> r[i] == r[..n][i] && ms[..n][i] == ms[1..][i - 1];
    assert AnswersAt(r, 0, k + 1, id);
  }

  lemma {:induction false} AnsweredByPlaceholder(ms: seq<Message>, r: seq<Message>, open: seq<string>, id: string)
    requires ms != [] && id in open
    requires var n := LeadingAnswers(ms[1..]) + 1; |r| >= n + |open| && r[..n] == ms[..n] && r[n..n + |open|] == Placeholders(open)
    ensures exists j :: AnswersAt(r, 0, j, id)
  {
    var n := LeadingAnswers(ms[1..]) + 1;
    var k :| 0 <= k < |open| && open[k] == id;
    assert forall i :: 1 <= i < n ==> r[i] == r[..n][i] && ms[..n][i] == ms[1..][i - 1];
    assert forall i :: n <= i < n + |open| ==> r[i] == r[n..n + |open|][i - n];
    assert AnswersAt(r, 0, n + k, id);
  }

  lemma {:induction false} FirstIsAnswered(ms: seq<Message>)
    requires ms != [] && MakesCalls(ms[0])
    ensures AnsweredAt(Fix(ms), 0)
  {
    hide Fix, LeadingAnswers, AnsweredIds, Placeholders, AnswersAt;
    var r, open := Fix(ms), MissingAt(ms);
    var n, rest := FixStep(ms);
    assert r[..n] == ms[..n] && r[n..n + |Placeholders(open)|] == Placeholders(open);
    forall id | id in ms[0].toolCalls ensures exists j :: AnswersAt(r, 0, j, id) {
      if id in open {
        AnsweredByPlaceholder(ms, r, open, id);
      } else {
        AnsweredByRun(ms, r, id);
      }
    }
  }

  // ----- nothing else changes -----

  /** `ms` is `r` with some placeholders taken out. */
  predicate Erases(r: seq<Message>, ms: seq<Message>) {
    if r == [] then ms == []
    else
      || (ms != [] && r[0] == ms[0] && Erases(r[1..], ms[1..]))
      || (r[0] == Placeholder(r[0].toolCallId) && Erases(r[1..], ms))
  }

  lemma {:induction false} ErasesAfter(kept: seq<Message>, added: seq<string>, r: seq<Message>, ms: seq<Message>)
    requires Erases(r, ms)
    ensures Erases(kept + Placeholders(added) + r, kept + ms)
    decreases |kept|, |added|
  {
    var all := kept + Placeholders(added) + r;
    if kept != [] {
      ErasesAfter(kept[1..], added, r, ms);
      assert all[1..] == kept[1..] + Placeholders(added) + r;
      assert (kept + ms)[1..] == kept[1..] + ms;
    } else if added != [] {
      ErasesAfter([], added[1..], r, ms);
      assert all[0] == Placeholder(added[0]);
      assert all[1..] == [] + Placeholders(added[1..]) + r;
      assert kept + ms == [] + ms;
    } else {
      assert all == r && kept + ms == ms;
    }
  }

  lemma {:induction false} AnswersOpenNothing(ms: seq<Message>, n: nat)
    requires n <= LeadingAnswers(ms)
    ensures OpenCalls(ms) == OpenCalls(ms[n..])
  {
    hide LeadingAnswers, OpenCalls, MissingAt, IsAnswer;
    if n > 0 {
      FirstAnswer(ms);
      AnswersOpenNothing(ms[1..], n - 1);
      assert ms[1..][n - 1..] == ms[n..];
    } else {
      assert ms[0..] == ms;
    }
  }

  lemma {:induction false} NothingErased()
    ensures Erases([], [])
  {
  }

  /** Taking placeholders out of the result gives the input back in order, and there are
      exactly as many of them as there were open calls. */
  lemma {:induction false} OnlyInserts(ms: seq<Message>)
    ensures Erases(Fix(ms), ms)
    ensures |Fix(ms)| == |ms| + OpenCalls(ms)
    decreases |ms|
  {
    hide Fix, LeadingAnswers, MissingAt, Placeholders, Erases;
    NothingToFix();
    NothingErased();
    if ms != [] {
      var n, rest := FixStep(ms);
      OnlyInserts(ms[n..]);
      ErasesAfter(ms[..n], MissingAt(ms), rest, ms[n..]);
      assert ms[..n] + ms[n..] == ms;
      AnswersOpenNothing(ms[1..], n - 1);
      assert ms[1..][n - 1..] == ms[n..];
    }
  }

  // ----- when a second pass changes nothing -----

  /** A list is left alone exactly when no call is open. */
  lemma {:induction false} UnchangedIffNothingOpen(ms: seq<Message>)
    ensures Fix(ms) == ms <==> OpenCalls(ms) == 0
    decreases |ms|
  {
    hide Fix, LeadingAnswers, MissingAt, Erases, MakesCalls;
    OnlyInserts(ms);
    NothingToFix();
    if OpenCalls(ms) == 0 && ms != [] {
      var n, rest := FixStep(ms);
      AnswersOpenNothing(ms[1..], n - 1);
      assert ms[1..][n - 1..] == ms[n..];
      UnchangedIffNothingOpen(ms[n..]);
      assert ms[..n] + Placeholders([]) + ms[n..] == ms;
    }
  }

  /** No call has an empty id. */
  predicate NoEmptyIds(ms: seq<Message>) {
    forall i :: 0 <= i < |ms| && MakesCalls(ms[i]) ==> "" !in ms[i].toolCalls
  }

  lemma {:induction false} FixStartsAlike(ms: seq<Message>)
    ensures ms != [] ==> Fix(ms) != [] && Fix(ms)[0] == ms[0]
    ensures ms == [] ==> Fix(ms) == []
  {
  }

  lemma {:induction false} BlockAnswers(tail: seq<Message>, open: seq<string>, after: seq<Message>)
    requires "" !in open && (after == [] || !IsAnswer(after[0]))
    ensures var n := LeadingAnswers(tail);
            var t := tail[..n] + Placeholders(open) + after;
            && LeadingAnswers(t) == n + |open| && t[n + |open|..] == after
            && forall id :: id in AnsweredIds(tail) || id in open ==> id in AnsweredIds(t)
  {
    hide LeadingAnswers, Missing;
    var n := LeadingAnswers(tail);
    var t := tail[..n] + Placeholders(open) + after;
    assert forall k :: 0 <= k < n ==> t[k] == tail[k];
    assert forall k :: n <= k < n + |open| ==> t[k] == Placeholder(open[k - n]);
    LeadingAnswersAre(t, n + |open|);
    forall id | id in AnsweredIds(tail) || id in open ensures id in AnsweredIds(t) {
      if id in AnsweredIds(tail) {
        var k :| 0 <= k < n && tail[k].toolCallId == id;
        assert t[k].toolCallId == id;
      } else {
        var k :| 0 <= k < |open| && open[k] == id;
        assert t[n + k].toolCallId == id;
      }
    }
  }

  lemma {:induction false} NothingMissing(ids: seq<string>, answered: set<string>)
    requires forall id :: id in ids ==> id in answered
    ensures Missing(ids, answered) == []
  {
    if ids != [] {
      NothingMissing(ids[..|ids| - 1], answered);
      assert ids[|ids| - 1] in answered;
    }
  }

  lemma {:induction false} BlockIsClosed(ms: seq<Message>)
    requires ms != [] && MakesCalls(ms[0]) && "" !in ms[0].toolCalls
    ensures var n := LeadingAnswers(ms[1..]) + 1;
            OpenCalls(Fix(ms)) == OpenCalls(Fix(ms[n..]))
  {
    hide Fix, LeadingAnswers, AnsweredIds, Placeholders, Missing;
    var r, open := Fix(ms), MissingAt(ms);
    var n, after := FixStep(ms);
    FixStartsAlike(ms[n..]);
    assert n < |ms| ==> ms[n] == ms[1..][n - 1];
    BlockAnswers(ms[1..], open, after);
    assert r[1..] == ms[1..][..n - 1] + Placeholders(open) + after;
    assert r[0] == ms[0];
    NothingMissing(ms[0].toolCalls, AnsweredIds(r[1..]));
    AnswersOpenNothing(r[1..], n - 1 + |open|);
  }

  lemma {:induction false} FixLeavesNothingOpen(ms: seq<Message>)
    requires NoEmptyIds(ms)
    ensures OpenCalls(Fix(ms)) == 0
    decreases |ms|
  {
    if ms != [] {
      if MakesCalls(ms[0]) {
        var n := LeadingAnswers(ms[1..]) + 1;
        FixLeavesNothingOpen(ms[n..]);
        BlockIsClosed(ms);
      } else {
        FixLeavesNothingOpen(ms[1..]);
        assert Fix(ms)[1..] == Fix(ms[1..]);
      }
    }
  }

  lemma {:induction false} EmptyIdStaysOpen(r: seq<Message>, ms: seq<Message>)
    requires Erases(r, ms) && !NoEmptyIds(ms)
    ensures OpenCalls(r) > 0
  {
    if r == [] {
    } else if ms != [] && r[0] == ms[0] && Erases(r[1..], ms[1..]) {
      if MakesCalls(ms[0]) && "" in ms[0].toolCalls {
        assert "" in MissingAt(r) by {
          assert "" !in AnsweredIds(r[1..]);
        }
      } else {
        assert !NoEmptyIds(ms[1..]) by {
          var i :| 0 <= i < |ms| && MakesCalls(ms[i]) && "" in ms[i].toolCalls;
          assert ms[1..][i - 1] == ms[i];
        }
        EmptyIdStaysOpen(r[1..], ms[1..]);
      }
    } else {
      EmptyIdStaysOpen(r[1..], ms);
    }
  }

  /** The pass is idempotent exactly on the lists without empty call ids: such an id can
      never be answered, and every pass adds one more placeholder for it. */
  lemma {:induction false} IdempotentIffNoEmptyIds(ms: seq<Message>)
    ensures Fix(Fix(ms)) == Fix(ms) <==> NoEmptyIds(ms)
  {
    UnchangedIffNothingOpen(Fix(ms));
    OnlyInserts(ms);
    if NoEmptyIds(ms) {
      FixLeavesNothingOpen(ms);
    } else {
      EmptyIdStaysOpen(Fix(ms), ms);
    }
  }

  /** A call with an empty id gets another placeholder on the second pass. */
  lemma {:induction false} EmptyIdGrows()
    ensures var call := Message("assistant", [""], "", "");
            && Fix([call]) == [call, Placeholder("")]
            && Fix(Fix([call])) == [call, Placeholder(""), Placeholder("")]
  {
    hide Fix, LeadingAnswers, AnsweredIds, Missing, Placeholders;
    var call, p := Message("assistant", [""], "", ""), Placeholder("");
    OpenAgain(call, []);
    OpenAgain(call, [p]);
    NothingToFix();
    PlaceholderStays(p);
    assert [call] + [p] + [] == [call, p] && [call] + [p] + [p] == [call, p, p];
    assert [call] + [] == [call] && [call] + [p] == [call, p];
  }

  lemma {:induction false} PlaceholderStays(p: Message)
    requires !MakesCalls(p)
    ensures Fix([p]) == [p]
  {
    assert [p][1..] == [];
    assert Fix([p][1..]) == [];
  }

  lemma {:induction false} OpenAgain(call: Message, rest: seq<Message>)
    requires MakesCalls(call) && call.toolCalls == [""] && (rest == [] || !IsAnswer(rest[0]))
    ensures Fix([call] + rest) == [call] + [Placeholder("")] + Fix(rest)
  {
    hide Fix;
    var ms := [call] + rest;
    assert ms[1..] == rest && ms[..1] == [call];
    assert [""][..0] == [];
    assert "" !in AnsweredIds(rest);
    assert Missing([""][..0], AnsweredIds(rest)) == [];
    assert Placeholders([""]) == [Placeholder("")];
    var n, after := FixStep(ms);
  }
}
