/** A JSON payload cut across several events is translated as if it had come whole. */
module FragmentRejoin {
  import opened Strings
  import opened Messages
  import opened Sessions
  import opened SessionIsolation

  /** Every proper, non-empty prefix is recognised as truncated, as for the text of a JSON object. */
  ghost predicate PrefixesTruncated(text: string, codec: Codec) {
    forall i :: 0 < i < |text| ==> codec.parse(text[..i]).Truncated?
  }

  /** `calls` deliver the pieces in order, for session `key`. */
  ghost predicate Delivers(calls: seq<Call>, key: string, pieces: seq<string>) {
    && |calls| == |pieces| > 0
    && forall i :: 0 <= i < |calls| ==>
         calls[i].TranslateCall? && calls[i].key == key && Receive(calls[i].raw) == Data(pieces[i]) && pieces[i] != ""
  }

  /** Each call but the last is held back without an event; the last gets `last`. */
  function HeldThen(n: nat, last: Reply): seq<Reply> {
    seq(n, i => Events([])) + [last]
  }

  /** A run of pieces is a prefix of the whole, proper unless it is all of them. */
  lemma {:induction false} PiecesArePrefix(pieces: seq<string>, i: nat)
    requires i <= |pieces| && forall p :: p in pieces ==> p != ""
    ensures var part, whole := Concat(pieces[..i]), Concat(pieces);
            && |part| <= |whole| && part == whole[..|part|]
            && (i < |pieces| ==> |part| < |whole|)
            && (0 < i ==> 0 < |part|)
  {
    assert pieces == pieces[..i] + pieces[i..];
    ConcatSplit(pieces[..i], pieces[i..]);
    if i < |pieces| {
      assert pieces[|pieces| - 1] in pieces;
    }
    if 0 < i {
      assert pieces[..i][i - 1] in pieces;
    }
  }

  /** The call that completes the run `done` of earlier pieces. */
  lemma {:induction false} OnePiece(r: Registry, call: Call, done: string, piece: string, codec: Codec)
    requires call.TranslateCall? && call.key != "" && Receive(call.raw) == Data(piece)
    requires Buffered(r, call.key) == done
    ensures var full := done + piece;
            var r1 := r.(pending := r.pending - {call.key});
            Serve(r, call, codec) ==
              match codec.parse(full)
              case Parsed(c) => OnChunk(r1, call.key, c, call.now, call.newId, call.order, codec)
              case Truncated =>
                if |full| < MAX_PENDING_JSON then (r1.(pending := r1.pending[call.key := full]), Events([])) else (r1, Failed)
              case Malformed => (r1, Failed)
  {
    hide OnChunk, Receive;
  }

  /** One more piece is held. */
  lemma {:induction false} OneMoreHeld(r: Registry, call: Call, done: string, piece: string, codec: Codec)
    requires call.TranslateCall? && call.key != "" && Receive(call.raw) == Data(piece) && call.key !in r.pending
    requires codec.parse(done + piece).Truncated? && |done + piece| < MAX_PENDING_JSON
    ensures Serve(if done == "" then r else r.(pending := r.pending[call.key := done]), call, codec)
         == (r.(pending := r.pending[call.key := done + piece]), Events([]))
  {
    hide Serve, Receive;
    var before := if done == "" then r else r.(pending := r.pending[call.key := done]);
    OnePiece(before, call, done, piece, codec);
    assert before.pending - {call.key} == r.pending;
  }

  lemma {:induction false} ServeLast(r: Registry, calls: seq<Call>, i: nat, codec: Codec)
    requires 0 < i <= |calls|
    ensures var before := ServeAll(r, calls[..i - 1], codec);
            var (r', reply) := Serve(before.0, calls[i - 1], codec);
            ServeAll(r, calls[..i], codec) == (r', before.1 + [reply])
  {
    hide Serve;
    assert calls[..i][..i - 1] == calls[..i - 1];
  }

  lemma {:induction false} NothingServed(r: Registry, calls: seq<Call>, codec: Codec)
    ensures ServeAll(r, calls[..0], codec) == (r, [])
  {
  }

  lemma {:induction false} NextPiece(pieces: seq<string>, i: nat)
    requires 0 < i <= |pieces|
    ensures Concat(pieces[..i]) == Concat(pieces[..i - 1]) + pieces[i - 1]
    ensures Concat(pieces[..0]) == ""
  {
    assert pieces[..i][..i - 1] == pieces[..i - 1];
  }

  /** While the buffered text stays below the limit every piece is held. */
  lemma {:induction false} HeldSoFar(r: Registry, calls: seq<Call>, key: string, pieces: seq<string>, i: nat, codec: Codec)
    requires Delivers(calls, key, pieces) && key != "" && key !in r.pending
    requires PrefixesTruncated(Concat(pieces), codec)
    requires i < |pieces| && |Concat(pieces[..i])| < MAX_PENDING_JSON
    ensures ServeAll(r, calls[..i], codec)
         == (if i == 0 then r else r.(pending := r.pending[key := Concat(pieces[..i])]), seq(i, j => Events([])))
  {
    hide Serve, Receive, Concat, ServeAll;
    if i == 0 {
      NothingServed(r, calls, codec);
      return;
    }
    assert forall p :: p in pieces ==> p != "";
    PiecesArePrefix(pieces, i);
    PiecesArePrefix(pieces, i - 1);
    NextPiece(pieces, i);
    HeldSoFar(r, calls, key, pieces, i - 1, codec);
    OneMoreHeld(r, calls[i - 1], Concat(pieces[..i - 1]), pieces[i - 1], codec);
    ServeLast(r, calls, i, codec);
    assert seq(i - 1, j => Events([])) + [Events([])] == seq(i, j => Events([]));
  }

  /** The first piece that takes the buffered text to the limit, if it is not the last, is refused. */
  lemma {:induction false} RefusedAtLimit(r: Registry, calls: seq<Call>, key: string, pieces: seq<string>, i: nat, codec: Codec)
    requires Delivers(calls, key, pieces) && key != "" && key !in r.pending
    requires PrefixesTruncated(Concat(pieces), codec)
    requires 0 < i < |pieces| && |Concat(pieces[..i - 1])| < MAX_PENDING_JSON <= |Concat(pieces[..i])|
    ensures |ServeAll(r, calls[..i], codec).1| == i && ServeAll(r, calls[..i], codec).1[i - 1] == Failed
  {
    hide Serve, Receive;
    assert forall p :: p in pieces ==> p != "";
    PiecesArePrefix(pieces, i);
    assert pieces[..i][..i - 1] == pieces[..i - 1] && calls[..i][..i - 1] == calls[..i - 1];
    HeldSoFar(r, calls, key, pieces, i - 1, codec);
    var before, done := ServeAll(r, calls[..i - 1], codec).0, Concat(pieces[..i - 1]);
    OnePiece(before, calls[i - 1], done, pieces[i - 1], codec);
  }

  lemma {:induction false} RepliesArePrefix(r: Registry, calls: seq<Call>, i: nat, codec: Codec)
    requires i <= |calls|
    ensures |ServeAll(r, calls, codec).1| == |calls| && ServeAll(r, calls[..i], codec).1 == ServeAll(r, calls, codec).1[..i]
    decreases |calls|
  {
    hide Serve;
    ReplyCount(r, calls, codec);
    if i < |calls| {
      var init := calls[..|calls| - 1];
      assert init[..i] == calls[..i];
      RepliesArePrefix(r, init, i, codec);
    } else {
      assert calls[..i] == calls;
    }
  }

  lemma {:induction false} ChunkKeepsPending(r: Registry, key: string, c: Chunk, now: int, newId: string, order: seq<int>, codec: Codec)
    ensures OnChunk(r, key, c, now, newId, order, codec).0.pending == r.pending
  {
  }

  /** The cut at which the buffered text first reaches the limit. */
  lemma {:induction false} LimitCut(pieces: seq<string>, n: nat) returns (i: nat)
    requires n <= |pieces| && |Concat(pieces[..n])| >= MAX_PENDING_JSON
    ensures 0 < i <= n && |Concat(pieces[..i - 1])| < MAX_PENDING_JSON <= |Concat(pieces[..i])|
  {
    i := n;
    if |Concat(pieces[..n - 1])| >= MAX_PENDING_JSON {
      i := LimitCut(pieces, n - 1);
    }
  }

  /** Pieces delivered one by one give the reply and the table that the whole payload,
      delivered with the last piece's call, would give, with nothing written before, if
      and only if the text before the last piece is below the limit. */
  lemma {:induction false} PiecesRejoin(r: Registry, calls: seq<Call>, whole: Call, key: string, pieces: seq<string>, codec: Codec)
    requires Delivers(calls, key, pieces) && key != "" && key !in r.pending
    requires PrefixesTruncated(Concat(pieces), codec)
    requires whole.TranslateCall? && whole == calls[|calls| - 1].(raw := whole.raw) && Receive(whole.raw) == Data(Concat(pieces))
    ensures var (after, reply) := Serve(r, whole, codec);
            ServeAll(r, calls, codec) == (after, HeldThen(|calls| - 1, reply))
            <==> |Concat(pieces[..|pieces| - 1])| < MAX_PENDING_JSON
    ensures codec.parse(Concat(pieces)).Parsed? ==> key !in Serve(r, whole, codec).0.pending
  {
    hide Serve, Receive, OnChunk, Delivers;
    DeliveredTo(calls, key, pieces);
    var n := |pieces| - 1;
    WholePiece(r, whole, key, Concat(pieces), codec);
    if |Concat(pieces[..n])| < MAX_PENDING_JSON {
      PiecesHeld(r, calls, whole, key, pieces, codec);
    } else {
      var i := LimitCut(pieces, n);
      RefusedAtLimit(r, calls, key, pieces, i, codec);
      RepliesArePrefix(r, calls, i, codec);
      assert ServeAll(r, calls, codec).1[i - 1] == Failed;
    }
  }

  lemma {:induction false} DeliveredTo(calls: seq<Call>, key: string, pieces: seq<string>)
    requires Delivers(calls, key, pieces)
    ensures |calls| == |pieces| > 0 && calls[|calls| - 1].key == key
  {
  }

  lemma {:induction false} WholePiece(r: Registry, whole: Call, key: string, text: string, codec: Codec)
    requires whole.TranslateCall? && whole.key == key != "" && key !in r.pending && Receive(whole.raw) == Data(text)
    ensures codec.parse(text).Parsed? ==> key !in Serve(r, whole, codec).0.pending
  {
    hide OnChunk, Receive;
    assert "" + text == text && r.pending - {key} == r.pending;
    if codec.parse(text).Parsed? {
      ChunkKeepsPending(r, key, codec.parse(text).chunk, whole.now, whole.newId, whole.order, codec);
    }
  }

  lemma {:induction false} PiecesHeld(r: Registry, calls: seq<Call>, whole: Call, key: string, pieces: seq<string>, codec: Codec)
    requires Delivers(calls, key, pieces) && key != "" && key !in r.pending
    requires PrefixesTruncated(Concat(pieces), codec)
    requires whole.TranslateCall? && whole == calls[|calls| - 1].(raw := whole.raw) && Receive(whole.raw) == Data(Concat(pieces))
    requires |Concat(pieces[..|pieces| - 1])| < MAX_PENDING_JSON
    ensures var (after, reply) := Serve(r, whole, codec);
            ServeAll(r, calls, codec) == (after, HeldThen(|calls| - 1, reply))
  {
    hide Serve, Receive, OnChunk;
    var n, w := |pieces| - 1, Concat(pieces);
    OnePiece(r, whole, "", w, codec);
    assert "" + w == w && r.pending - {key} == r.pending;
    HeldSoFar(r, calls, key, pieces, n, codec);
    var before := ServeAll(r, calls[..n], codec).0;
    OnePiece(before, calls[n], Concat(pieces[..n]), pieces[n], codec);
    assert before.pending - {key} == r.pending;
  }

  /** A codec for which text is a chunk once it is longer than the limit. */
  function LongOnly(c: Chunk): Codec {
    Codec(text => if |text| > MAX_PENDING_JSON then Parsed(c) else Truncated, (_, arguments) => arguments)
  }

  function Letters(n: nat): string {
    seq(n, _ => 'a')
  }

  lemma {:induction false} LettersAreReceived(n: nat)
    requires n > 0
    ensures Receive(Letters(n)) == Data(Letters(n))
  {
    var s := Letters(n);
    assert s[0] == 'a' && s[n - 1] == 'a';
    assert TrimSpace(s) == s;
    PrefixHead(s, "data:");
    assert s[0] != "[DONE]"[0];
  }

  /** A payload cut behind its first 1 MiB is refused there, whatever follows. */
  lemma {:induction false} LongPieceIsRefused(c: Chunk)
    ensures var calls := [TranslateCall("k", Letters(MAX_PENDING_JSON), 1, "id", []), TranslateCall("k", Letters(1), 1, "id", [])];
            && Delivers(calls, "k", [Letters(MAX_PENDING_JSON), Letters(1)])
            && LongOnly(c).parse(Letters(MAX_PENDING_JSON) + Letters(1)).Parsed?
            && |ServeAll(EMPTY, calls, LongOnly(c)).1| == 2 && ServeAll(EMPTY, calls, LongOnly(c)).1[0] == Failed
  {
    hide Letters, Serve, Receive, ServeAll;
    LettersAreReceived(1);
    LettersAreReceived(MAX_PENDING_JSON);
    LettersCount(1);
    LettersCount(MAX_PENDING_JSON);
    var pieces := [Letters(MAX_PENDING_JSON), Letters(1)];
    var calls := [TranslateCall("k", pieces[0], 1, "id", []), TranslateCall("k", pieces[1], 1, "id", [])];
    NextPiece(pieces, 1);
    NextPiece(pieces, 2);
    assert pieces[..2] == pieces && "" + pieces[0] == pieces[0];
    RefusedAtLimit(EMPTY, calls, "k", pieces, 1, LongOnly(c));
    RepliesArePrefix(EMPTY, calls, 1, LongOnly(c));
  }

  lemma {:induction false} LettersCount(n: nat)
    ensures |Letters(n)| == n
  {
  }
}
