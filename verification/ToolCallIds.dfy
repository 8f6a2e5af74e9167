/** Tool-call ids that carry a function name and a thought signature through a client
    (backend/internal/translator/gemini.go): `call_<name>_<n>`, then `__ts__<signature>`
    when there is one. */
module ToolCallIds {
  import opened Strings

  const SEPARATOR := "__ts__"

  /** strings.LastIndex over the positions up to `i`. */
  function LastBefore(s: string, sub: string, i: nat): (r: int)
    requires i <= |s|
    ensures -1 <= r <= i
    ensures r >= 0 ==> HasPrefix(s[r..], sub)
    ensures forall j :: r < j <= i ==> !HasPrefix(s[j..], sub)
  {
    if HasPrefix(s[i..], sub) then i else if i == 0 then -1 else LastBefore(s, sub, i - 1)
  }

  function LastIndex(s: string, sub: string): int {
    LastBefore(s, sub, |s|)
  }

  /** The id without its number's signature. */
  function PlainId(name: string, n: nat): string {
    "call_" + name + "_" + Decimal(n)
  }

  function EncodeId(name: string, n: nat, sig: string): string {
    if sig == "" then PlainId(name, n) else PlainId(name, n) + SEPARATOR + sig
  }

  /** `extractThoughtSig`. */
  function ExtractThoughtSig(id: string): string {
    var at := LastIndex(id, SEPARATOR);
    if at == -1 then "" else id[at + |SEPARATOR|..]
  }

  function CleanId(id: string): string {
    var at := LastIndex(id, SEPARATOR);
    if at == -1 then id else id[..at]
  }

  /** The function an id names when the conversation does not say. */
  function NameFromId(clean: string): string {
    if HasPrefix(clean, "call_") then
      var rest := clean[5..];
      var at := LastIndex(rest, "_");
      if at > 0 then rest[..at] else rest
    else clean
  }

  datatype Call = Call(id: string, name: string)

  /** `known` after `calls`; later calls win. */
  function AddNames(known: map<string, string>, calls: seq<Call>): map<string, string> {
    if calls == [] then known
    else
      var before, c := AddNames(known, calls[..|calls| - 1]), calls[|calls| - 1];
      if c.id == "" || c.name == "" then before else before[c.id := c.name][CleanId(c.id) := c.name]
  }

  /** Which function each id of the conversation stands for. */
  function NamesById(calls: seq<Call>): map<string, string> {
    AddNames(map[], calls)
  }

  function Lookup(names: map<string, string>, id: string): string {
    if id in names then names[id] else ""
  }

  /** The function a tool result is attributed to. */
  function ResultName(names: map<string, string>, id: string): string {
    if Lookup(names, id) != "" then Lookup(names, id)
    else if Lookup(names, CleanId(id)) != "" then Lookup(names, CleanId(id))
    else NameFromId(CleanId(id))
  }

  function AssistantCalls(messages: seq<(string, seq<Call>)>): seq<Call> {
    if messages == [] then []
    else
      var (role, calls) := messages[|messages| - 1];
      AssistantCalls(messages[..|messages| - 1]) + if role == "assistant" then calls else []
  }

  lemma {:induction false} AddSplit(known: map<string, string>, a: seq<Call>, b: seq<Call>)
    ensures AddNames(known, a + b) == AddNames(AddNames(known, a), b)
    decreases |b|
  {
    hide CleanId;
    if b == [] {
      assert a + b == a;
    } else {
      assert (a + b)[..|a + b| - 1] == a + b[..|b| - 1];
      AddSplit(known, a, b[..|b| - 1]);
    }
  }

  method CollectFrom(known: map<string, string>, calls: seq<Call>) returns (names: map<string, string>)
    ensures names == AddNames(known, calls)
  {
    hide CleanId;
    names := known;
    for k := 0 to |calls|
      invariant names == AddNames(known, calls[..k])
    {
      assert calls[..k + 1][..k] == calls[..k];
      var c := calls[k];
      if c.id != "" && c.name != "" {
        names := names[c.id := c.name];
        names := names[CleanId(c.id) := c.name];
      }
    }
    assert calls[..|calls|] == calls;
  }

  method CollectNames(messages: seq<(string, seq<Call>)>) returns (names: map<string, string>)
    ensures names == NamesById(AssistantCalls(messages))
  {
    hide AddNames;
    names := map[];
    ghost var done: seq<Call> := [];
    NothingAdded(map[]);
    for i := 0 to |messages|
      invariant done == AssistantCalls(messages[..i]) && names == AddNames(map[], done)
    {
      assert messages[..i + 1][..i] == messages[..i];
      var (role, calls) := messages[i];
      if role == "assistant" {
        names := CollectFrom(names, calls);
        AddSplit(map[], done, calls);
        done := done + calls;
      } else {
        assert done + [] == done;
      }
    }
    assert messages[..|messages|] == messages;
  }

  lemma {:induction false} NothingAdded(known: map<string, string>)
    ensures AddNames(known, []) == known
  {
  }

  // ----- decoding undoes encoding -----

  lemma {:induction false} LastIndexIs(s: string, sub: string, i: nat)
    requires i <= |s| && HasPrefix(s[i..], sub)
    requires forall j :: i < j <= |s| ==> !HasPrefix(s[j..], sub)
    ensures LastIndex(s, sub) == i
  {
    var r := LastIndex(s, sub);
    assert !(r < i);
  }

  lemma {:induction false} PrefixAt(s: string, i: nat, sub: string)
    requires i <= |s|
    ensures HasPrefix(s[i..], sub) <==> i + |sub| <= |s| && forall k :: 0 <= k < |sub| ==> s[i + k] == sub[k]
  {
    if i + |sub| <= |s| {
      assert s[i..][..|sub|] == s[i..i + |sub|];
    }
  }

  lemma {:induction false} ContainsIffFound(s: string, sub: string)
    ensures Contains(s, sub) <==> LastIndex(s, sub) != -1
  {
    if LastIndex(s, sub) != -1 {
      ContainsAt(s, LastIndex(s, sub), sub);
    }
    if Contains(s, sub) {
      var i := FindsAt(s, sub);
    }
  }

  lemma {:induction false} FindsAt(s: string, sub: string) returns (i: nat)
    requires Contains(s, sub)
    ensures i <= |s| && HasPrefix(s[i..], sub)
  {
    if HasPrefix(s, sub) {
      i := 0;
      assert s[0..] == s;
    } else {
      i := FindsAt(s[1..], sub);
      assert s[1..][i..] == s[i + 1..];
      i := i + 1;
    }
  }

  /** Behind a name, the number adds no separator. */
  lemma {:induction false} NumberHidesNothing(name: string, n: nat)
    ensures LastIndex(PlainId(name, n), SEPARATOR) == LastIndex("call_" + name + "_", SEPARATOR)
  {
    var head, id := "call_" + name + "_", PlainId(name, n);
    DecimalReads(n);
    assert id == head + Decimal(n);
    forall j | 0 <= j <= |id| ensures HasPrefix(id[j..], SEPARATOR) <==> j <= |head| && HasPrefix(head[j..], SEPARATOR) {
      PrefixAt(id, j, SEPARATOR);
      if j <= |head| {
        PrefixAt(head, j, SEPARATOR);
      }
      assert j + 5 < |id| ==> (id[j + 5] == '_' ==> j + 5 < |head|);
    }
    var r := LastIndex(head, SEPARATOR);
    if r >= 0 {
      LastIndexIs(id, SEPARATOR, r);
    }
  }

  lemma {:induction false} SignatureStartsAt(name: string, n: nat, sig: string)
    requires sig != ""
    ensures var at := LastIndex(EncodeId(name, n, sig), SEPARATOR);
            at >= |PlainId(name, n)| && (at == |PlainId(name, n)| <==> !Contains("_ts__" + sig, SEPARATOR))
  {
    hide PlainId, Contains, HasPrefix, LastBefore;
    var p, tail := |PlainId(name, n)|, "_ts__" + sig;
    var id := EncodeId(name, n, sig);
    assert id[p..] == SEPARATOR + sig && id[p + 1..] == tail;
    PrefixAt(id, p, SEPARATOR);
    var at := LastIndex(id, SEPARATOR);
    if at > p {
      assert tail[at - p - 1..] == id[at..];
      ContainsAt(tail, at - p - 1, SEPARATOR);
    }
    if Contains(tail, SEPARATOR) {
      var i := FindsAt(tail, SEPARATOR);
      assert tail[i..] == id[p + 1 + i..];
    }
  }

  /** The separator cannot be mistaken: not in the name's part of the id when there is no
      signature, and not from its second byte on when there is one. */
  predicate Separable(name: string, sig: string) {
    if sig == "" then !Contains("call_" + name + "_", SEPARATOR) else !Contains("_ts__" + sig, SEPARATOR)
  }

  lemma {:induction false} DecodesIffSeparable(name: string, n: nat, sig: string)
    ensures ExtractThoughtSig(EncodeId(name, n, sig)) == sig <==> Separable(name, sig)
    ensures CleanId(EncodeId(name, n, sig)) == PlainId(name, n) <==> Separable(name, sig)
  {
    var id, p := EncodeId(name, n, sig), |PlainId(name, n)|;
    if sig == "" {
      NumberHidesNothing(name, n);
      ContainsIffFound("call_" + name + "_", SEPARATOR);
      var at := LastIndex(id, SEPARATOR);
      DecimalReads(n);
      if at >= 0 {
        PrefixAt(id, at, SEPARATOR);
        assert id[at + 5] == SEPARATOR[5] && id[|id| - 1] == Decimal(n)[|Decimal(n)| - 1];
      }
    } else {
      SignatureStartsAt(name, n, sig);
      assert id[..p] == PlainId(name, n) && id[p + 6..] == sig;
    }
  }

  lemma {:induction false} PlainSignatureIsSeparable(name: string, sig: string)
    requires sig != "" && '_' !in sig
    ensures Separable(name, sig)
  {
    var tail := "_ts__" + sig;
    ContainsIffFound(tail, SEPARATOR);
    forall i | 0 <= i <= |tail| ensures !HasPrefix(tail[i..], SEPARATOR) {
      PrefixAt(tail, i, SEPARATOR);
      assert SEPARATOR[0] == '_' && SEPARATOR[1] == '_' && SEPARATOR[5] == '_';
    }
  }

  /** An id gives back the function's name exactly when there is one. */
  lemma {:induction false} NameDecodesIffNamed(name: string, n: nat)
    ensures NameFromId(PlainId(name, n)) == name <==> name != ""
  {
    var id := PlainId(name, n);
    var rest := name + "_" + Decimal(n);
    assert id[5..] == rest && id[..5] == "call_";
    DecimalReads(n);
    PrefixAt(rest, |name|, "_");
    forall j | |name| < j <= |rest| ensures !HasPrefix(rest[j..], "_") {
      PrefixAt(rest, j, "_");
      assert j < |rest| ==> rest[j + 0] == Decimal(n)[j - |name| - 1];
    }
    LastIndexIs(rest, "_", |name|);
    assert rest[..|name|] == name;
  }

  lemma {:induction false} LastUnderscore(rest: string, at: nat)
    requires at < |rest| && rest[at] == '_'
    ensures LastIndex(rest, "_") >= at
  {
    PrefixAt(rest, at, "_");
    var r := LastIndex(rest, "_");
    assert !(r < at);
  }

  /** Cut in front of its number, an id gives back less than the name. */
  lemma {:induction false} CutNameIsLost(name: string, n: nat)
    requires !Separable(name, "")
    ensures NameFromId(CleanId(PlainId(name, n))) != name
  {
    var head, id := "call_" + name + "_", PlainId(name, n);
    NumberHidesNothing(name, n);
    ContainsIffFound(head, SEPARATOR);
    var at := LastIndex(head, SEPARATOR);
    PrefixAt(head, at, SEPARATOR);
    assert id[..at] == head[..at];
    assert head[..4] == "call" && forall i :: 0 <= i < 4 ==> head[i] == "call"[i] != '_';
    assert head[at] == SEPARATOR[0] && head[at + 1] == SEPARATOR[1];
    if at == 4 {
      assert head[5] == name[0];
    } else {
      assert head[..at][5..] == name[..at - 5];
    }
  }

  /** Cut inside its signature, an id gives back more than the name. */
  lemma {:induction false} LongNameIsLost(name: string, n: nat, sig: string)
    requires sig != "" && !Separable(name, sig)
    ensures NameFromId(CleanId(EncodeId(name, n, sig))) != name
  {
    hide Separable, LastBefore;
    var id, plain := EncodeId(name, n, sig), PlainId(name, n);
    SignatureStartsAt(name, n, sig);
    NotSeparable(name, sig);
    var at := LastIndex(id, SEPARATOR);
    var clean := CleanId(id);
    assert clean == id[..at] && id[..5] == "call_" && id[|plain|] == '_';
    assert clean[..5] == id[..5] && clean[5..][|plain| - 5] == id[|plain|];
    LastUnderscore(clean[5..], |plain| - 5);
  }

  lemma {:induction false} NotSeparable(name: string, sig: string)
    requires sig != "" && !Separable(name, sig)
    ensures Contains("_ts__" + sig, SEPARATOR)
  {
  }

  /** An id, signed or not, gives back the function's name if and only if there is a name and
      the separator cannot be mistaken. */
  lemma {:induction false} NameSurvivesIff(name: string, n: nat, sig: string)
    ensures NameFromId(CleanId(EncodeId(name, n, sig))) == name <==> name != "" && Separable(name, sig)
  {
    hide Separable, NameFromId, CleanId, PlainId;
    DecodesIffSeparable(name, n, sig);
    NameDecodesIffNamed(name, n);
    if !Separable(name, sig) {
      if sig == "" {
        CutNameIsLost(name, n);
      } else {
        LongNameIsLost(name, n, sig);
      }
    }
  }

  // ----- attributing results -----

  predicate Stands(c: Call, id: string) {
    c.id != "" && c.name != "" && (id == c.id || id == CleanId(c.id))
  }

  lemma {:induction false} NoNames(id: string)
    ensures Lookup(NamesById([]), id) == ""
  {
  }

  lemma {:induction false} LastCall(calls: seq<Call>, id: string)
    requires calls != []
    ensures var n := |calls| - 1;
            Lookup(NamesById(calls), id) == if Stands(calls[n], id) then calls[n].name else Lookup(NamesById(calls[..n]), id)
  {
    hide CleanId;
  }

  /** An id stands for the function of the last call that bears it, in full or cleaned. */
  lemma {:induction false} LatestCallNames(calls: seq<Call>, id: string)
    ensures if exists i :: 0 <= i < |calls| && Stands(calls[i], id)
            then exists i :: 0 <= i < |calls| && Stands(calls[i], id) && Lookup(NamesById(calls), id) == calls[i].name
                             && forall j :: i < j < |calls| ==> !Stands(calls[j], id)
            else Lookup(NamesById(calls), id) == ""
  {
    hide Stands, NamesById;
    NoNames(id);
    if calls != [] {
      var n := |calls| - 1;
      LatestCallNames(calls[..n], id);
      LastCall(calls, id);
      assert forall i :: 0 <= i < n ==> calls[..n][i] == calls[i];
    }
  }

  /** Fit to be encoded: a name, and no separator that could be mistaken for the real one. */
  predicate Encodable(name: string, sig: string) {
    name != "" && Separable(name, "") && (sig == "" || Separable(name, sig))
  }

  ghost predicate Encoded(c: Call) {
    exists n: nat, sig :: Encodable(c.name, sig) && c.id == EncodeId(c.name, n, sig)
  }

  lemma {:induction false} EncodedDecodes(name: string, n: nat, sig: string)
    requires Encodable(name, sig)
    ensures var id := EncodeId(name, n, sig);
            NameFromId(CleanId(id)) == name && CleanId(CleanId(id)) == CleanId(id) && id != ""
  {
    hide CleanId, NameFromId, Separable;
    DecodesIffSeparable(name, n, sig);
    DecodesIffSeparable(name, n, "");
    NameDecodesIffNamed(name, n);
  }

  /** Two encoded ids look alike once cleaned if and only if they carry the same function and
      the same number; the signatures do not matter. */
  lemma {:induction false} SameCleanIdIff(a: string, i: nat, s: string, b: string, j: nat, t: string)
    requires Encodable(a, s) && Encodable(b, t)
    ensures CleanId(EncodeId(a, i, s)) == CleanId(EncodeId(b, j, t)) <==> a == b && i == j
  {
    hide CleanId, NameFromId, Separable;
    EncodedDecodes(a, i, s);
    EncodedDecodes(b, j, t);
    CleanIsPlain(a, i, s);
    CleanIsPlain(b, j, t);
    if a == b && PlainId(a, i) == PlainId(b, j) {
      var head := "call_" + a + "_";
      assert PlainId(a, i)[|head|..] == Decimal(i) && PlainId(b, j)[|head|..] == Decimal(j);
      DecimalReads(i);
      DecimalReads(j);
    }
  }

  lemma {:induction false} CleanIsPlain(name: string, n: nat, sig: string)
    requires Encodable(name, sig)
    ensures CleanId(EncodeId(name, n, sig)) == PlainId(name, n)
  {
    hide CleanId, EncodeId, PlainId;
    DecodesIffSeparable(name, n, sig);
  }

  lemma {:induction false} MapIsConsistent(calls: seq<Call>)
    requires forall c :: c in calls ==> Encoded(c)
    ensures forall id :: id in NamesById(calls) ==> NamesById(calls)[id] == NameFromId(CleanId(id))
  {
    hide CleanId, NameFromId, EncodeId;
    if calls != [] {
      MapIsConsistent(calls[..|calls| - 1]);
      var c := calls[|calls| - 1];
      assert Encoded(c);
      var n: nat, sig :| Encodable(c.name, sig) && c.id == EncodeId(c.name, n, sig);
      EncodedDecodes(c.name, n, sig);
    }
  }

  /** Whatever encoded calls the conversation holds, this one among them or not, a result
      for an encoded id goes to the function that was called. */
  lemma {:induction false} ResultFindsItsFunction(calls: seq<Call>, name: string, n: nat, sig: string)
    requires (forall c :: c in calls ==> Encoded(c)) && Encodable(name, sig)
    ensures ResultName(NamesById(calls), EncodeId(name, n, sig)) == name
  {
    hide CleanId, NameFromId, Encoded, NamesById;
    MapIsConsistent(calls);
    EncodedDecodes(name, n, sig);
  }

  /** Without the condition on names two different functions can share an id. */
  lemma {:induction false} SeparatorInNameClashes()
    ensures EncodeId("x", 1, "b_0") == EncodeId("x_1__ts__b", 0, "")
  {
    assert Decimal(1) == "1" && Decimal(0) == "0";
  }

  /** A signature with a separator of its own comes back cut. */
  lemma {:induction false} SeparatorInSignatureCuts(name: string, n: nat)
    ensures ExtractThoughtSig(EncodeId(name, n, "a__ts__b")) != "a__ts__b"
  {
    var tail := "_ts__" + "a__ts__b";
    assert tail[6..] == "__ts__b" && tail[6..][..6] == SEPARATOR;
    ContainsAt(tail, 6, SEPARATOR);
    DecodesIffSeparable(name, n, "a__ts__b");
  }
}
