/** The reader of Amazon Event Stream frames (backend/internal/providers/eventstream.go):
    prelude (total length, header length, checksum), headers, payload, checksum. */
module EventStreamFrames {

  type Byte = n: int | 0 <= n < 256

  type Bytes = seq<Byte>

  type Headers = map<Bytes, Bytes>

  const PRELUDE := 12

  const CHECKSUM := 4

  const MAX_FRAME := 10 * 1024 * 1024

  datatype Frame = Frame(headers: Headers, payload: Bytes)

  datatype Outcome = EndOfStream | Got(frame: Frame) | Broken

  function U16(b: Bytes): nat
    requires |b| == 2
  {
    b[0] as int * 0x100 + b[1]
  }

  function U32(b: Bytes): nat
    requires |b| == 4
  {
    U16(b[..2]) * 0x1_0000 + U16(b[2..])
  }

  /** The three kinds of value the reader stores; all are read as length and bytes. */
  predicate Stored(kind: Byte) {
    kind == 7 || kind == 6 || kind == 3
  }

  /** What the header section `h` adds to `got`; a section cut short ends the reading. */
  function ParseHeaders(h: Bytes, got: Headers): Headers {
    if h == [] then got else
    var n: int := h[0];
    if |h| < n + 4 then got else
    var len := U16(h[n + 2..n + 4]);
    if |h| < n + 4 + len then got
    else ParseHeaders(h[n + 4 + len..], if Stored(h[n + 1]) then got[h[1..n + 1] := h[n + 4..n + 4 + len]] else got)
  }

  /** The next frame of `data`, and what is left to read. */
  function Read(data: Bytes): (r: (Outcome, Bytes))
    ensures |r.1| <= |data|
    ensures r.0.Got? ==> |r.1| < |data|
  {
    if |data| < PRELUDE then (EndOfStream, []) else
    var total, headerLen := U32(data[0..4]), U32(data[4..8]);
    if total < PRELUDE || total > MAX_FRAME || headerLen > total - PRELUDE then (Broken, data[PRELUDE..])
    else if |data| < total then (Broken, [])
    else
      var start, end := PRELUDE + headerLen, total - CHECKSUM;
      (Got(Frame(ParseHeaders(data[PRELUDE..start], map[]), if end > start then data[start..end] else [])), data[total..])
  }

  /** All frames up to the first answer that is none, and that answer. */
  function ReadAll(data: Bytes): (seq<Frame>, Outcome) {
    var (r, rest) := Read(data);
    if r.Got? then
      var (frames, last) := ReadAll(rest);
      ([r.frame] + frames, last)
    else ([], r)
  }

  /** One step of the header loop, by absolute positions. */
  lemma {:induction false} OneHeader(b: Bytes, pos: nat, got: Headers)
    requires pos < |b|
    ensures var n: int := b[pos];
            var at := pos + 1 + n;
            if at + 3 > |b| then ParseHeaders(b[pos..], got) == got
            else
              var start := at + 3;
              var end := start + U16(b[at + 1..start]);
              if end > |b| then ParseHeaders(b[pos..], got) == got
              else ParseHeaders(b[pos..], got) ==
                     ParseHeaders(b[end..], if Stored(b[at]) then got[b[pos + 1..at] := b[start..end]] else got)
  {
    hide ParseHeaders, U16, Stored;
    var h, n: int := b[pos..], b[pos];
    var at := pos + 1 + n;
    UnfoldHeaders(h, got);
    if at + 3 <= |b| {
      var start := at + 3;
      Slice(b, pos, n + 2, n + 4);
      var end := start + U16(b[at + 1..start]);
      if end <= |b| {
        Slice(b, pos, 1, n + 1);
        Slice(b, pos, n + 4, end - pos);
      }
    }
  }

  lemma {:induction false} Slice(b: Bytes, pos: nat, i: nat, j: nat)
    requires i <= j && pos + j <= |b|
    ensures b[pos..][i..j] == b[pos + i..pos + j] && b[pos..][j..] == b[pos + j..]
  {
  }

  /** Where the reader goes on behind the first header; -1 if the section is cut short there. */
  function NextHeader(h: Bytes): (next: int)
    requires h != []
    ensures next == -1 || h[0] as int + 4 <= next <= |h|
  {
    var n: int := h[0];
    if |h| < n + 4 then -1 else
    var end := n + 4 + U16(h[n + 2..n + 4]);
    if |h| < end then -1 else end
  }

  lemma {:induction false} UnfoldHeaders(h: Bytes, got: Headers)
    requires h != []
    ensures var n: int, next := h[0], NextHeader(h);
            if next == -1 then ParseHeaders(h, got) == got
            else ParseHeaders(h, got) == ParseHeaders(h[next..], if Stored(h[n + 1]) then got[h[1..n + 1] := h[n + 4..next]] else got)
  {
    hide U16;
  }

  lemma {:induction false} NoMoreHeaders(got: Headers)
    ensures ParseHeaders([], got) == got
  {
  }

  class EventStreamReader {
    /** What the underlying reader has yet to deliver. */
    var unread: Bytes

    constructor (data: Bytes)
      ensures unread == data
    {
      unread := data;
    }

    /** io.ReadFull into `buf[start..]`: `n` bytes, fewer than asked for only at the end. */
    method ReadFull(buf: array<Byte>, start: nat) returns (n: nat)
      requires start <= buf.Length
      modifies this, buf
      ensures n == if |old(unread)| < buf.Length - start then |old(unread)| else buf.Length - start
      ensures unread == old(unread)[n..]
      ensures buf[..start] == old(buf[..start])
      ensures buf[start..start + n] == old(unread)[..n]
    {
      n := 0;
      while start + n < buf.Length && n < |unread|
        modifies buf
        invariant start + n <= buf.Length && n <= |unread|
        invariant buf[..start] == old(buf[..start])
        invariant buf[start..start + n] == unread[..n]
      {
        buf[start + n] := unread[n];
        n := n + 1;
        assert buf[start..start + n] == buf[start..start + n - 1] + [unread[n - 1]];
      }
      unread := unread[n..];
    }

    static method ReadHeaders(headerBytes: Bytes) returns (headers: Headers)
      ensures headers == ParseHeaders(headerBytes, map[])
    {
      hide ParseHeaders, U16;
      headers := map[];
      var pos := 0;
      assert headerBytes[0..] == headerBytes;
      while pos < |headerBytes|
        invariant 0 <= pos <= |headerBytes|
        invariant ParseHeaders(headerBytes[pos..], headers) == ParseHeaders(headerBytes, map[])
      {
        OneHeader(headerBytes, pos, headers);
        var nameLen: int := headerBytes[pos];
        pos := pos + 1;
        if pos + nameLen > |headerBytes| {
          return;
        }
        var name := headerBytes[pos..pos + nameLen];
        pos := pos + nameLen;
        if pos + 3 > |headerBytes| {
          return;
        }
        var valueType := headerBytes[pos];
        pos := pos + 1;
        var valLen := U16(headerBytes[pos..pos + 2]);
        pos := pos + 2;
        if pos + valLen > |headerBytes| {
          return;
        }
        if valueType == 7 || valueType == 6 || valueType == 3 {
          headers := headers[name := headerBytes[pos..pos + valLen]];
        }
        pos := pos + valLen;
      }
      assert headerBytes[pos..] == [];
      NoMoreHeaders(headers);
    }

    /** The prelude and its two lengths; nothing when the stream ends before it is complete. */
    method ReadPrelude() returns (totalLen: nat, headerLen: nat, prelude: Bytes)
      modifies this
      ensures if |old(unread)| < PRELUDE then prelude == [] && unread == []
              else && prelude == old(unread)[..PRELUDE] && unread == old(unread)[PRELUDE..]
                   && totalLen == U32(old(unread)[0..4]) && headerLen == U32(old(unread)[4..8])
    {
      hide U32;
      var buf := new Byte[PRELUDE];
      var n := ReadFull(buf, 0);
      if n < PRELUDE {
        return 0, 0, [];
      }
      prelude := buf[..];
      assert prelude == buf[0..0 + n];
      assert prelude[0..4] == old(unread)[0..4] && prelude[4..8] == old(unread)[4..8];
      totalLen, headerLen := U32(prelude[0..4]), U32(prelude[4..8]);
    }

    /** The whole frame, prelude included; nothing when the stream ends inside it. */
    method ReadBody(prelude: Bytes, totalLen: nat) returns (body: Bytes)
      requires |prelude| == PRELUDE <= totalLen
      modifies this
      ensures if |old(unread)| < totalLen - PRELUDE then body == [] && unread == []
              else body == prelude + old(unread)[..totalLen - PRELUDE] && unread == old(unread)[totalLen - PRELUDE..]
    {
      var frame := new Byte[totalLen];
      for i := 0 to PRELUDE
        modifies frame
        invariant frame[..i] == prelude[..i]
      {
        frame[i] := prelude[i];
      }
      var n := ReadFull(frame, PRELUDE);
      if n < totalLen - PRELUDE {
        return [];
      }
      assert frame[..] == frame[..PRELUDE] + frame[PRELUDE..PRELUDE + n];
      body := frame[..];
    }

    /** On any bytes at all. */
    method ReadFrame() returns (r: Outcome)
      modifies this
      ensures (r, unread) == Read(old(unread))
    {
      hide ParseHeaders, U16, U32;
      ghost var data := unread;
      var totalLen, headerLen, prelude := ReadPrelude();
      if |prelude| == 0 {
        return EndOfStream;
      }
      if totalLen < PRELUDE || totalLen > MAX_FRAME {
        return Broken;
      }
      if headerLen > totalLen - PRELUDE {
        return Broken;
      }
      var frame := ReadBody(prelude, totalLen);
      if |frame| == 0 {
        return Broken;
      }
      ghost var whole := prelude + data[PRELUDE..totalLen];
      assert frame == whole == data[..totalLen] && unread == data[totalLen..];
      var headers := ReadHeaders(frame[PRELUDE..PRELUDE + headerLen]);
      var payloadStart, payloadEnd := PRELUDE + headerLen, totalLen - CHECKSUM;
      assert whole[PRELUDE..payloadStart] == data[PRELUDE..payloadStart];
      if payloadEnd > payloadStart {
        assert whole[payloadStart..payloadEnd] == data[payloadStart..payloadEnd];
        return Got(Frame(headers, frame[payloadStart..payloadEnd]));
      }
      return Got(Frame(headers, []));
    }
  }

  // ----- the writer's side of the format -----

  datatype Header = Header(name: Bytes, value: Bytes, kind: Byte)

  /** A frame as its writer sees it. The reader looks at neither checksum. */
  datatype Message = Message(headers: seq<Header>, payload: Bytes, preludeChecksum: Bytes, checksum: Bytes)

  function Be16(n: nat): (b: Bytes)
    requires n < 0x1_0000
    ensures |b| == 2 && U16(b) == n
  {
    [n / 0x100, n % 0x100]
  }

  function Be32(n: nat): (b: Bytes)
    requires n < 0x1_0000_0000
    ensures |b| == 4 && U32(b) == n
  {
    var b := Be16(n / 0x1_0000) + Be16(n % 0x1_0000);
    assert b[..2] == Be16(n / 0x1_0000) && b[2..] == Be16(n % 0x1_0000);
    b
  }

  /** A byte array (6) or a string (7), the kinds that are written with a length. */
  predicate Encodable(h: Header) {
    |h.name| < 0x100 && |h.value| < 0x1_0000 && (h.kind == 6 || h.kind == 7)
  }

  function EncodeHeader(h: Header): Bytes
    requires Encodable(h)
  {
    [|h.name|] + h.name + [h.kind] + Be16(|h.value|) + h.value
  }

  function EncodeHeaders(hs: seq<Header>): Bytes
    requires forall h :: h in hs ==> Encodable(h)
  {
    if hs == [] then [] else EncodeHeader(hs[0]) + EncodeHeaders(hs[1..])
  }

  predicate Sendable(m: Message) {
    && (forall h :: h in m.headers ==> Encodable(h))
    && |m.preludeChecksum| == CHECKSUM && |m.checksum| == CHECKSUM
    && PRELUDE + |EncodeHeaders(m.headers)| + |m.payload| + CHECKSUM <= MAX_FRAME
  }

  function Encode(m: Message): Bytes
    requires Sendable(m)
  {
    var headers := EncodeHeaders(m.headers);
    Be32(PRELUDE + |headers| + |m.payload| + CHECKSUM) + Be32(|headers|) + m.preludeChecksum + headers + m.payload + m.checksum
  }

  function EncodeAll(ms: seq<Message>): Bytes
    requires forall m :: m in ms ==> Sendable(m)
  {
    if ms == [] then [] else Encode(ms[0]) + EncodeAll(ms[1..])
  }

  /** The headers by name; of a name used twice the last value. */
  function Named(hs: seq<Header>, got: Headers): Headers {
    if hs == [] then got else Named(hs[1..], got[hs[0].name := hs[0].value])
  }

  function Meaning(m: Message): Frame {
    Frame(Named(m.headers, map[]), m.payload)
  }

  function Meanings(ms: seq<Message>): seq<Frame> {
    seq(|ms|, i requires 0 <= i < |ms| => Meaning(ms[i]))
  }

  // ----- round trip -----

  lemma {:induction false} HeaderRoundTrip(h: Header, rest: Bytes, got: Headers)
    requires Encodable(h)
    ensures ParseHeaders(EncodeHeader(h) + rest, got) == ParseHeaders(rest, got[h.name := h.value])
  {
    var b, n, len := EncodeHeader(h) + rest, |h.name|, |h.value|;
    assert b[0] == n && b[n + 1] == h.kind;
    assert b[1..n + 1] == h.name;
    assert b[n + 2..n + 4] == Be16(len);
    assert b[n + 4..n + 4 + len] == h.value;
    assert b[n + 4 + len..] == rest;
  }

  lemma {:induction false} HeadersRoundTrip(hs: seq<Header>, got: Headers)
    requires forall h :: h in hs ==> Encodable(h)
    ensures ParseHeaders(EncodeHeaders(hs), got) == Named(hs, got)
  {
    if hs != [] {
      HeaderRoundTrip(hs[0], EncodeHeaders(hs[1..]), got);
      HeadersRoundTrip(hs[1..], got[hs[0].name := hs[0].value]);
    }
  }

  /** With distinct names the map holds exactly the headers written. */
  lemma {:induction false} DistinctNamesAllKept(hs: seq<Header>, got: Headers)
    requires forall i, j :: 0 <= i < j < |hs| ==> hs[i].name != hs[j].name
    requires forall i :: 0 <= i < |hs| ==> hs[i].name !in got
    ensures Named(hs, got).Keys == got.Keys + set i | 0 <= i < |hs| :: hs[i].name
    ensures forall i :: 0 <= i < |hs| ==> Named(hs, got)[hs[i].name] == hs[i].value
    ensures forall k :: k in got ==> Named(hs, got)[k] == got[k]
  {
    if hs != [] {
      var more := got[hs[0].name := hs[0].value];
      DistinctNamesAllKept(hs[1..], more);
      assert forall i :: 1 <= i < |hs| ==> hs[i] == hs[1..][i - 1];
    }
  }

  lemma {:induction false} Layout(m: Message, rest: Bytes)
    requires Sendable(m)
    ensures var data, headers := Encode(m) + rest, EncodeHeaders(m.headers);
            var start := PRELUDE + |headers|;
            var total := start + |m.payload| + CHECKSUM;
            && total <= |data| && total < 0x1_0000_0000
            && data[0..4] == Be32(total) && data[4..8] == Be32(|headers|)
            && data[PRELUDE..start] == headers && data[start..total - CHECKSUM] == m.payload && data[total..] == rest
  {
  }

  lemma {:induction false} FrameRoundTrip(m: Message, rest: Bytes)
    requires Sendable(m)
    ensures Read(Encode(m) + rest) == (Got(Meaning(m)), rest)
  {
    hide Encode, EncodeHeaders, ParseHeaders, Named, Be32, U32;
    Layout(m, rest);
    HeadersRoundTrip(m.headers, map[]);
  }

  lemma {:induction false} CutFrame(m: Message, cut: nat)
    requires Sendable(m) && cut < |Encode(m)|
    ensures Read(Encode(m)[..cut]).0 == if cut < PRELUDE then EndOfStream else Broken
  {
    hide EncodeHeaders, ParseHeaders, Be32, U32;
    Layout(m, []);
    var data := Encode(m)[..cut];
    if cut >= PRELUDE {
      assert Encode(m) + [] == Encode(m);
      assert data[0..4] == Encode(m)[0..4] && data[4..8] == Encode(m)[4..8];
    }
  }

  // ----- headers of the other kinds -----

  /** A header of any kind as it is written. Strings and byte arrays have their length in
      front of their bytes; a value of fixed size has none. */
  function RawHeader(name: Bytes, kind: Byte, value: Bytes): Bytes
    requires |name| < 0x100
  {
    [|name|] + name + [kind] + value
  }

  /** The first two bytes behind the kind, whatever they are, are the number of those that
      remain of the value. */
  predicate LengthInFront(value: Bytes, rest: Bytes) {
    |value + rest| >= 2 && U16((value + rest)[..2]) + 2 == |value|
  }

  /** Behind a header the reader goes on where the next one starts if and only if the value
      happens to have its length in front, and then reads the rest as it would be alone. A
      boolean has no bytes and a single byte too few for this to hold at all. */
  lemma {:induction false} ReadsOnBehindIff(name: Bytes, kind: Byte, value: Bytes, rest: Bytes, got: Headers)
    requires |name| < 0x100
    ensures var header := RawHeader(name, kind, value);
            NextHeader(header + rest) == |header| <==> LengthInFront(value, rest)
    ensures LengthInFront(value, rest) ==>
              ParseHeaders(RawHeader(name, kind, value) + rest, got) == ParseHeaders(rest, if Stored(kind) then got[name := value[2..]] else got)
  {
    hide ParseHeaders, U16, Stored;
    var h, n := RawHeader(name, kind, value) + rest, |name|;
    assert h[0] == n && h[n + 1] == kind && h[1..n + 1] == name && h[n + 2..] == value + rest;
    UnfoldHeaders(h, got);
    if |value + rest| >= 2 {
      assert h[n + 2..n + 4] == (value + rest)[..2];
    }
    if LengthInFront(value, rest) {
      assert h[n + 4..n + 2 + |value|] == value[2..] && h[n + 2 + |value|..] == rest;
    }
  }

  /** A boolean header in front takes a string header with it. */
  lemma {:induction false} BooleanHidesHeader()
    ensures ParseHeaders(RawHeader([97], 0, []) + EncodeHeader(Header([98], [99], 7)), map[]) == map[]
    ensures ParseHeaders(EncodeHeader(Header([98], [99], 7)), map[]) == map[[98] := [99]]
  {
    var written := EncodeHeader(Header([98], [99], 7));
    var b := RawHeader([97], 0, []) + written;
    assert b[3..5] == written[..2] == [1, 98];
    HeaderRoundTrip(Header([98], [99], 7), [], map[]);
    assert written + [] == written;
  }

  /** Repeated reading of frames written back to back gives every frame exactly as
      written. When the stream is cut inside a further frame this is noticed exactly if the
      cut is behind that frame's prelude; with nothing behind the frames it ends. */
  lemma {:induction false} FramesRoundTrip(ms: seq<Message>, last: Message, cut: nat)
    requires (forall m :: m in ms ==> Sendable(m)) && Sendable(last) && cut < |Encode(last)|
    ensures ReadAll(EncodeAll(ms) + Encode(last)[..cut]) == (Meanings(ms), if cut < PRELUDE then EndOfStream else Broken)
  {
    hide Encode, Read, Meaning;
    var tail := Encode(last)[..cut];
    CutFrame(last, cut);
    if ms == [] {
      assert EncodeAll(ms) + tail == tail;
      assert Meanings(ms) == [];
    } else {
      var rest := EncodeAll(ms[1..]) + tail;
      FrameRoundTrip(ms[0], rest);
      assert EncodeAll(ms) + tail == Encode(ms[0]) + rest;
      FramesRoundTrip(ms[1..], last, cut);
      assert Meanings(ms) == [Meaning(ms[0])] + Meanings(ms[1..]);
    }
  }
}
