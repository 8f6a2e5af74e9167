/** The grammar of a Claude event stream: a reader that accepts it event by event, and what
    it accepts, position by position. */
module EventGrammar {
  import opened Messages

  /** A client reading the stream: which block index comes next, which blocks are open. */
  datatype Reader = Waiting | InMessage(next: int, open: map<int, BlockKind>) | Closed | Finished | Rejected

  predicate Fits(d: BlockContent, k: BlockKind) {
    match d
    case ThinkingDelta(_) => k.Thinking?
    case TextDelta(_) => k.Text?
    case InputJsonDelta(_) => k.ToolUse?
  }

  /** Blocks are numbered 0, 1, 2, ...; a delta must fit the open block it names;
      a thinking or text block may start only when no other such block is open;
      the message ends with no block open. */
  function Read(r: Reader, e: Event): Reader {
    match e
    case MessageStart(_, _) => if r.Waiting? then InMessage(0, map[]) else Rejected
    case BlockStart(i, k) =>
      if r.InMessage? && i == r.next && (k.ToolUse? || forall j :: j in r.open ==> r.open[j].ToolUse?)
      then InMessage(i + 1, r.open[i := k]) else Rejected
    case BlockDelta(i, d) => if r.InMessage? && i in r.open && Fits(d, r.open[i]) then r else Rejected
    case BlockStop(i) => if r.InMessage? && i in r.open then InMessage(r.next, r.open - {i}) else Rejected
    case MessageDelta(_, _, _) => if r.InMessage? && r.open == map[] then Closed else Rejected
    case MessageStop => if r.Closed? then Finished else Rejected
  }

  function ReadAll(r: Reader, es: seq<Event>): Reader {
    if es == [] then r else Read(ReadAll(r, es[..|es| - 1]), es[|es| - 1])
  }

  predicate Accepted(es: seq<Event>) {
    ReadAll(Waiting, es) == Finished
  }

  // ----- what acceptance means, event by event -----

  function CountStarts(es: seq<Event>): nat {
    if es == [] then 0 else CountStarts(es[..|es| - 1]) + if es[|es| - 1].BlockStart? then 1 else 0
  }

  ghost predicate StartsAt(es: seq<Event>, p: int, i: int) {
    0 <= p < |es| && es[p].BlockStart? && es[p].index == i
  }

  ghost predicate StopsAt(es: seq<Event>, p: int, i: int) {
    0 <= p < |es| && es[p] == BlockStop(i)
  }

  /** Exactly one message_start, first; message_delta and message_stop once, last. */
  ghost predicate Framed(es: seq<Event>) {
    && |es| >= 3 && es[0].MessageStart? && es[|es| - 2].MessageDelta? && es[|es| - 1].MessageStop?
    && forall p :: 0 < p < |es| - 2 ==> es[p].BlockStart? || es[p].BlockDelta? || es[p].BlockStop?
  }

  /** The k-th block to start has index k. */
  ghost predicate Numbered(es: seq<Event>) {
    forall p :: 0 <= p < |es| && es[p].BlockStart? ==> es[p].index == CountStarts(es[..p])
  }

  /** The one stop of the block started at `p` is at `q`, later. */
  ghost predicate OnlyStop(es: seq<Event>, p: int, q: int)
    requires 0 <= p < |es| && es[p].BlockStart?
  {
    p < q && StopsAt(es, q, es[p].index) && forall x :: StopsAt(es, x, es[p].index) ==> x == q
  }

  /** The delta at `d` belongs to the block started at `p`: of its kind, and inside it. */
  ghost predicate Inside(es: seq<Event>, d: int, p: int)
    requires 0 <= d < |es| && es[d].BlockDelta?
  {
    && p < d && StartsAt(es, p, es[d].index) && Fits(es[d].content, es[p].kind)
    && forall q :: StopsAt(es, q, es[d].index) ==> d < q
  }

  /** Between the starts of two thinking or text blocks the first one stops. */
  ghost predicate Exclusive(es: seq<Event>) {
    forall p0, p :: 0 <= p0 < p < |es| && es[p0].BlockStart? && es[p].BlockStart? && !es[p0].kind.ToolUse? && !es[p].kind.ToolUse?
      ==> exists q :: p0 < q < p && StopsAt(es, q, es[p0].index)
  }

  /** Every started block has exactly one stop, later. */
  ghost predicate StartsStop(es: seq<Event>) {
    forall p :: 0 <= p < |es| && es[p].BlockStart? ==> exists q :: OnlyStop(es, p, q)
  }

  /** Every stop is the one stop of a started block. */
  ghost predicate StopsStarted(es: seq<Event>) {
    forall q :: 0 <= q < |es| && es[q].BlockStop? ==> exists p :: StartsAt(es, p, es[q].index) && OnlyStop(es, p, q)
  }

  /** Every delta lies strictly inside a block of its kind. */
  ghost predicate DeltasInside(es: seq<Event>) {
    forall d :: 0 <= d < |es| && es[d].BlockDelta? ==> exists p :: Inside(es, d, p)
  }

  ghost predicate WellFormed(es: seq<Event>) {
    Framed(es) && Numbered(es) && StartsStop(es) && StopsStarted(es) && DeltasInside(es) && Exclusive(es)
  }

  /** The reader after the first `p` events. */
  function At(es: seq<Event>, p: nat): Reader
    requires p <= |es|
  {
    ReadAll(Waiting, es[..p])
  }

  lemma {:induction false} AtNext(es: seq<Event>, p: nat)
    requires p < |es|
    ensures At(es, p + 1) == Read(At(es, p), es[p])
  {
    assert es[..p + 1][..p] == es[..p];
  }

  lemma {:induction false} EndPhases(es: seq<Event>)
    requires Accepted(es)
    ensures |es| >= 3 && At(es, |es| - 1) == Closed && At(es, |es| - 2).InMessage? && At(es, |es| - 2).open == map[]
  {
    assert es[..|es|] == es;
    assert At(es, 0) == Waiting;
    AtNext(es, |es| - 1);
    AtNext(es, |es| - 2);
  }

  /** Strictly inside an accepted stream the message is open. */
  lemma {:induction false} OpenInside(es: seq<Event>, p: nat)
    requires Accepted(es) && 0 < p <= |es| - 2
    ensures At(es, p).InMessage?
    decreases |es| - p
  {
    EndPhases(es);
    AtNext(es, p);
    if p < |es| - 2 {
      OpenInside(es, p + 1);
    }
  }

  lemma {:induction false} AcceptedIsFramed(es: seq<Event>)
    requires Accepted(es)
    ensures Framed(es)
  {
    EndPhases(es);
    assert es[..|es|] == es && At(es, 0) == Waiting;
    AtNext(es, 0);
    OpenInside(es, 1);
    AtNext(es, |es| - 2);
    AtNext(es, |es| - 1);
    forall p | 0 < p < |es| - 2 ensures es[p].BlockStart? || es[p].BlockDelta? || es[p].BlockStop? {
      OpenInside(es, p);
      OpenInside(es, p + 1);
      AtNext(es, p);
    }
  }

  /** The next index is the number of starts so far, and open indices are below it. */
  lemma {:induction false} NextIsCount(es: seq<Event>, p: nat)
    requires Accepted(es) && 0 < p <= |es| - 2
    ensures At(es, p).InMessage? && At(es, p).next == CountStarts(es[..p])
    ensures forall i :: i in At(es, p).open ==> i < At(es, p).next
  {
    EndPhases(es);
    OpenInside(es, p);
    AtNext(es, p - 1);
    assert es[..p][..p - 1] == es[..p - 1];
    if p > 1 {
      NextIsCount(es, p - 1);
    } else {
      assert es[..p - 1] == [];
    }
  }

  /** A block that is not open and has been numbered never opens again. */
  lemma {:induction false} StaysClosed(es: seq<Event>, p: nat, p': nat, i: int)
    requires Accepted(es) && 0 < p <= p' <= |es| - 2
    requires At(es, p).InMessage? && i < At(es, p).next && i !in At(es, p).open
    ensures At(es, p').InMessage? && i < At(es, p').next && i !in At(es, p').open
    decreases p' - p
  {
    if p < p' {
      OpenInside(es, p + 1);
      AtNext(es, p);
      StaysClosed(es, p + 1, p', i);
    }
  }

  /** An open block was started, with the kind the reader remembers, and not stopped since. */
  lemma {:induction false} OpenWasStarted(es: seq<Event>, p: nat, i: int) returns (s: nat)
    requires Accepted(es) && 0 < p <= |es| - 2
    requires At(es, p).InMessage? && i in At(es, p).open
    ensures s < p && StartsAt(es, s, i) && es[s].kind == At(es, p).open[i]
    ensures forall q :: s < q < p ==> !StopsAt(es, q, i)
  {
    OpenInside(es, p);
    AtNext(es, p - 1);
    if es[p - 1].BlockStart? && es[p - 1].index == i {
      s := p - 1;
    } else {
      assert At(es, 0) == Waiting;
      s := OpenWasStarted(es, p - 1, i);
    }
  }

  /** A block open at `p` and closed at `end` is stopped in between. */
  lemma {:induction false} StopExists(es: seq<Event>, p: nat, end: nat, i: int) returns (q: nat)
    requires Accepted(es) && 0 < p <= end <= |es| - 2
    requires At(es, p).InMessage? && i in At(es, p).open
    requires At(es, end).InMessage? && i !in At(es, end).open
    ensures p <= q < end && StopsAt(es, q, i)
    decreases end - p
  {
    OpenInside(es, p + 1);
    AtNext(es, p);
    if i in At(es, p + 1).open {
      q := StopExists(es, p + 1, end, i);
    } else {
      q := p;
    }
  }

  /** After a stop its block is closed for good; before it, it is open. */
  lemma {:induction false} StopFacts(es: seq<Event>, q: nat, i: int)
    requires Accepted(es) && StopsAt(es, q, i)
    ensures 0 < q < |es| - 2 && At(es, q).InMessage? && i in At(es, q).open
    ensures At(es, q + 1).InMessage? && i !in At(es, q + 1).open && i < At(es, q + 1).next
  {
    EndPhases(es);
    AcceptedIsFramed(es);
    OpenInside(es, q);
    OpenInside(es, q + 1);
    NextIsCount(es, q);
    AtNext(es, q);
  }

  /** A start puts its block among the open ones, numbered by the starts before it. */
  lemma {:induction false} StartFacts(es: seq<Event>, p: nat)
    requires Accepted(es) && p < |es| && es[p].BlockStart?
    ensures 0 < p < |es| - 2 && At(es, p).InMessage? && At(es, p + 1).InMessage?
    ensures es[p].index == CountStarts(es[..p]) == At(es, p).next
    ensures es[p].index in At(es, p + 1).open && es[p].index !in At(es, p).open
    ensures es[p].kind.ToolUse? || forall j :: j in At(es, p).open ==> At(es, p).open[j].ToolUse?
  {
    EndPhases(es);
    AcceptedIsFramed(es);
    OpenInside(es, p);
    OpenInside(es, p + 1);
    NextIsCount(es, p);
    AtNext(es, p);
  }

  lemma {:induction false} StartHasOnlyStop(es: seq<Event>, p: nat) returns (q: nat)
    requires Accepted(es) && p < |es| && es[p].BlockStart?
    ensures OnlyStop(es, p, q)
  {
    StartFacts(es, p);
    EndPhases(es);
    var i := es[p].index;
    q := StopExists(es, p + 1, |es| - 2, i);
    forall x | StopsAt(es, x, i) ensures x == q {
      StopFacts(es, x, i);
      StopFacts(es, q, i);
      if x < q {
        StaysClosed(es, x + 1, q, i);
      } else if q < x {
        StaysClosed(es, q + 1, x, i);
      }
    }
  }

  lemma {:induction false} DeltaIsInside(es: seq<Event>, d: nat) returns (p: nat)
    requires Accepted(es) && d < |es| && es[d].BlockDelta?
    ensures Inside(es, d, p)
  {
    EndPhases(es);
    AcceptedIsFramed(es);
    OpenInside(es, d);
    OpenInside(es, d + 1);
    AtNext(es, d);
    var i := es[d].index;
    p := OpenWasStarted(es, d, i);
    forall q | StopsAt(es, q, i) ensures d < q {
      StopFacts(es, q, i);
      if q < d {
        StaysClosed(es, q + 1, d, i);
      }
    }
  }

  lemma {:induction false} StopBetween(es: seq<Event>, p0: nat, p: nat) returns (q: nat)
    requires Accepted(es) && p0 < p < |es| && es[p0].BlockStart? && es[p].BlockStart?
    requires !es[p0].kind.ToolUse? && !es[p].kind.ToolUse?
    ensures p0 < q < p && StopsAt(es, q, es[p0].index)
  {
    StartFacts(es, p0);
    StartFacts(es, p);
    var i := es[p0].index;
    if i in At(es, p).open {
      var s := OpenWasStarted(es, p, i);
      StartFacts(es, s);
      if s < p0 {
        NextGrows(es, s + 1, p0);
        AtNext(es, s);
      } else if p0 < s {
        NextGrows(es, p0 + 1, s);
        AtNext(es, p0);
      }
      assert false;
    }
    q := StopExists(es, p0 + 1, p, i);
  }

  lemma {:induction false} NextGrows(es: seq<Event>, p: nat, p': nat)
    requires Accepted(es) && 0 < p <= p' <= |es| - 2
    ensures At(es, p).InMessage? && At(es, p').InMessage? && At(es, p).next <= At(es, p').next
    decreases p' - p
  {
    OpenInside(es, p);
    if p < p' {
      OpenInside(es, p + 1);
      AtNext(es, p);
      NextGrows(es, p + 1, p');
    }
  }

  lemma {:induction false} StopHasStart(es: seq<Event>, q: nat) returns (p: nat)
    requires Accepted(es) && q < |es| && es[q].BlockStop?
    ensures StartsAt(es, p, es[q].index) && OnlyStop(es, p, q)
  {
    assert StopsAt(es, q, es[q].index);
    StopFacts(es, q, es[q].index);
    p := OpenWasStarted(es, q, es[q].index);
    var only := StartHasOnlyStop(es, p);
  }

  lemma {:induction false} AcceptedIsWellFormed(es: seq<Event>)
    requires Accepted(es)
    ensures WellFormed(es)
  {
    AcceptedIsFramed(es);
    forall p | 0 <= p < |es| && es[p].BlockStart?
      ensures es[p].index == CountStarts(es[..p]) && exists q :: OnlyStop(es, p, q)
    {
      StartFacts(es, p);
      var q := StartHasOnlyStop(es, p);
    }
    forall q | 0 <= q < |es| && es[q].BlockStop? ensures exists p :: StartsAt(es, p, es[q].index) && OnlyStop(es, p, q) {
      var p := StopHasStart(es, q);
    }
    forall d | 0 <= d < |es| && es[d].BlockDelta? ensures exists p :: Inside(es, d, p) {
      var p := DeltaIsInside(es, d);
    }
    forall p0, p | 0 <= p0 < p < |es| && es[p0].BlockStart? && es[p].BlockStart? && !es[p0].kind.ToolUse? && !es[p].kind.ToolUse?
      ensures exists q :: p0 < q < p && StopsAt(es, q, es[p0].index)
    {
      var q := StopBetween(es, p0, p);
    }
  }

  // ----- the converse -----

  lemma {:induction false} CountGrows(es: seq<Event>, p: nat, p': nat)
    requires p <= p' <= |es|
    ensures CountStarts(es[..p]) <= CountStarts(es[..p'])
    ensures p < p' && es[p].BlockStart? ==> CountStarts(es[..p]) < CountStarts(es[..p'])
    decreases p' - p
  {
    if p < p' {
      assert es[..p + 1][..p] == es[..p];
      CountGrows(es, p + 1, p');
    }
  }

  lemma {:induction false} SameIndexSameStart(es: seq<Event>, p: int, p': int, i: int)
    requires Numbered(es) && StartsAt(es, p, i) && StartsAt(es, p', i)
    ensures p == p'
  {
    if p < p' {
      CountGrows(es, p, p');
    } else if p' < p {
      CountGrows(es, p', p);
    }
  }

  lemma {:induction false} StopOf(es: seq<Event>, p: nat) returns (q: nat)
    requires Framed(es) && StartsStop(es) && p < |es| && es[p].BlockStart?
    ensures OnlyStop(es, p, q) && q < |es| - 2
  {
    q :| OnlyStop(es, p, q);
  }

  lemma {:induction false} StartOf(es: seq<Event>, q: nat) returns (p: nat)
    requires StopsStarted(es) && q < |es| && es[q].BlockStop?
    ensures p < q && StartsAt(es, p, es[q].index) && OnlyStop(es, p, q)
  {
    p :| StartsAt(es, p, es[q].index) && OnlyStop(es, p, q);
  }

  lemma {:induction false} BlockOf(es: seq<Event>, d: nat) returns (p: nat)
    requires DeltasInside(es) && d < |es| && es[d].BlockDelta?
    ensures Inside(es, d, p)
  {
    p :| Inside(es, d, p);
  }

  ghost predicate Unstopped(es: seq<Event>, s: int, p: int, i: int) {
    s < p && StartsAt(es, s, i) && forall q :: q < p ==> !StopsAt(es, q, i)
  }

  /** The reader has open exactly the blocks started and not yet stopped. */
  ghost predicate Mirrors(es: seq<Event>, p: nat, r: Reader)
    requires p <= |es|
  {
    && r.InMessage? && r.next == CountStarts(es[..p])
    && (forall i :: i in r.open ==> exists s :: Unstopped(es, s, p, i))
    && (forall s, i :: Unstopped(es, s, p, i) ==> i in r.open && r.open[i] == es[s].kind)
  }

  lemma {:induction false} WellFormedReads(es: seq<Event>, p: nat)
    requires WellFormed(es) && 0 < p <= |es| - 2
    ensures Mirrors(es, p, At(es, p))
  {
    hide StartsStop, StopsStarted, DeltasInside, Mirrors;
    var last := p - 1;
    AtNext(es, last);
    if last == 0 {
      MirrorsFirst(es);
    } else {
      WellFormedReads(es, last);
      match es[last] {
        case BlockStart(_, _) => MirrorsStart(es, last, At(es, last));
        case BlockDelta(_, _) => MirrorsDelta(es, last, At(es, last));
        case BlockStop(_) => MirrorsStop(es, last, At(es, last));
      }
    }
  }

  lemma {:induction false} MirrorsFirst(es: seq<Event>)
    requires Framed(es)
    ensures Mirrors(es, 1, Read(At(es, 0), es[0]))
  {
    assert es[..0] == [] && es[..1][..0] == [];
  }

  lemma {:induction false} MirrorsDelta(es: seq<Event>, p: nat, r: Reader)
    requires 0 < p < |es| - 2 && es[p].BlockDelta?
    ensures WellFormed(es) && Mirrors(es, p, r) ==>
              Mirrors(es, p + 1, Read(r, es[p]))
  {
    hide StartsStop, StopsStarted, DeltasInside;
    if WellFormed(es) && Mirrors(es, p, r) {
      assert es[..p + 1][..p] == es[..p];
      var s := BlockOf(es, p);
      assert Unstopped(es, s, p, es[p].index);
      forall s, i | Unstopped(es, s, p, i) ensures Unstopped(es, s, p + 1, i) {}
      forall s, i | Unstopped(es, s, p + 1, i) ensures Unstopped(es, s, p, i) {}
    }
  }

  lemma {:induction false} MirrorsStop(es: seq<Event>, p: nat, r: Reader)
    requires 0 < p < |es| - 2 && es[p].BlockStop?
    ensures WellFormed(es) && Mirrors(es, p, r) ==>
              Mirrors(es, p + 1, Read(r, es[p]))
  {
    hide StartsStop, StopsStarted, DeltasInside;
    if WellFormed(es) && Mirrors(es, p, r) {
      assert es[..p + 1][..p] == es[..p];
      var i0 := es[p].index;
      var s := StartOf(es, p);
      assert StopsAt(es, p, i0) && Unstopped(es, s, p, i0);
      forall s, i | Unstopped(es, s, p, i) && i != i0 ensures Unstopped(es, s, p + 1, i) {}
      forall s, i | Unstopped(es, s, p + 1, i) ensures Unstopped(es, s, p, i) && i != i0 {}
    }
  }

  lemma {:induction false} MirrorsStart(es: seq<Event>, p: nat, r: Reader)
    requires 0 < p < |es| - 2 && es[p].BlockStart?
    ensures WellFormed(es) && Mirrors(es, p, r) ==>
              Mirrors(es, p + 1, Read(r, es[p]))
  {
    hide StartsStop, StopsStarted, DeltasInside;
    if WellFormed(es) && Mirrors(es, p, r) {
      assert es[..p + 1][..p] == es[..p];
      var i0 := es[p].index;
      forall q | q < p ensures !StopsAt(es, q, i0) {
        if StopsAt(es, q, i0) {
          var s := StartOf(es, q);
          SameIndexSameStart(es, s, p, i0);
        }
      }
      assert i0 !in r.open by {
        if s :| Unstopped(es, s, p, i0) {
          SameIndexSameStart(es, s, p, i0);
        }
      }
      if !es[p].kind.ToolUse? {
        OnlyToolsOpen(es, p, r);
      }
      assert Unstopped(es, p, p + 1, i0);
      forall s, i | Unstopped(es, s, p, i) ensures Unstopped(es, s, p + 1, i) {}
      forall s, i | Unstopped(es, s, p + 1, i) && s < p ensures Unstopped(es, s, p, i) {}
    }
  }

  lemma {:induction false} OnlyToolsOpen(es: seq<Event>, p: nat, r: Reader)
    requires Exclusive(es) && p < |es| && es[p].BlockStart? && !es[p].kind.ToolUse? && Mirrors(es, p, r)
    ensures forall j :: j in r.open ==> r.open[j].ToolUse?
  {
    forall j | j in r.open ensures r.open[j].ToolUse? {
      var s :| Unstopped(es, s, p, j);
      assert es[s].kind.ToolUse?;
    }
  }

  /** The reader accepts exactly the well-formed streams. */
  lemma {:induction false} AcceptedIffWellFormed(es: seq<Event>)
    ensures Accepted(es) <==> WellFormed(es)
  {
    if Accepted(es) {
      AcceptedIsWellFormed(es);
    } else if WellFormed(es) {
      WellFormedIsAccepted(es);
    }
  }

  lemma {:induction false} WellFormedIsAccepted(es: seq<Event>)
    requires WellFormed(es)
    ensures Accepted(es)
  {
    hide StartsStop, StopsStarted, DeltasInside;
    var n := |es|;
    assert es[..n] == es;
    WellFormedReads(es, n - 2);
    var r := At(es, n - 2);
    forall i ensures i !in r.open {
      if i in r.open {
        var s :| Unstopped(es, s, n - 2, i);
        var q := StopOf(es, s);
      }
    }
    assert r.open == map[];
    AtNext(es, n - 2);
    AtNext(es, n - 1);
  }
}
