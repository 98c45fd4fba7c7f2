/** The event stream: the server's frames (internal/httpapi/events.go) and the
    browser's hand-written parser of them (web/app.js, connectEvents). The
    stream is text: chunks are what TextDecoder hands over. JSON is abstract:
    `encode` is json.Marshal, `decode` is JSON.parse, None when it throws. */
module Sse {
  import opened Basics

  // ---------- Lines and frames ----------

  /** The position of the first blank line, buf.indexOf("\n\n"). */
  function IndexOfBreak(s: string): (r: Option<nat>)
    ensures r.Some? ==> r.value + 2 <= |s| && BreakAt(s, r.value)
    ensures r.Some? ==> forall k :: 0 <= k < r.value ==> !BreakAt(s, k)
    ensures r.None? ==> forall k :: 0 <= k && k + 2 <= |s| ==> !BreakAt(s, k)
  {
    BreakFrom(s, 0)
  }

  predicate BreakAt(s: string, k: int) {
    0 <= k && k + 2 <= |s| && s[k] == '\n' && s[k + 1] == '\n'
  }

  function BreakFrom(s: string, k: nat): (r: Option<nat>)
    requires forall j :: 0 <= j < k ==> !BreakAt(s, j)
    ensures r.Some? ==> BreakAt(s, r.value) && forall j :: 0 <= j < r.value ==> !BreakAt(s, j)
    ensures r.None? ==> forall j :: !BreakAt(s, j)
    decreases |s| - k
  {
    if k + 2 > |s| then None else if BreakAt(s, k) then Some(k) else BreakFrom(s, k + 1)
  }

  const DATA := "data: "
  const HEADER := "event: relay\n"

  /** chunk.split('\n').find(l => l.startsWith('data: ')), without the prefix. */
  function DataOf(chunk: string): Option<string>
    decreases |chunk|
  {
    var end := LineEnd(chunk, 0);
    if DATA <= chunk[..end] then Some(chunk[|DATA|..end])
    else if end == |chunk| then None
    else DataOf(chunk[end + 1..])
  }

  function LineEnd(s: string, k: nat): (e: nat)
    requires k <= |s|
    ensures k <= e <= |s| && (forall j :: k <= j < e ==> s[j] != '\n') && (e < |s| ==> s[e] == '\n')
    decreases |s| - k
  {
    if k == |s| || s[k] == '\n' then k else LineEnd(s, k + 1)
  }

  // ---------- The client ----------

  /** What the client has: the events applied so far, the text not yet
      consumed, and whether a parse error has ended the loop. */
  datatype Client<S> = Client(applied: seq<S>, buf: string, dead: bool)

  /** The inner loop run to its end on a buffer. */
  function Drain<S>(decode: string -> Option<S>, c: Client<S>): (r: Client<S>)
    ensures !r.dead ==> IndexOfBreak(r.buf).None?
    ensures c.applied <= r.applied
    decreases |c.buf|
  {
    if c.dead then c
    else
      match IndexOfBreak(c.buf)
      case None => c
      case Some(idx) => Drain(decode, Frame(decode, c, idx))
  }

  /** One turn of the inner loop: take the frame before `idx` off the buffer. */
  function Frame<S>(decode: string -> Option<S>, c: Client<S>, idx: nat): Client<S>
    requires idx + 2 <= |c.buf|
  {
    var rest := c.buf[idx + 2..];
    match DataOf(c.buf[..idx])
    case None => c.(buf := rest)
    case Some(data) =>
      match decode(data)
      case None => c.(buf := rest, dead := true)
      case Some(st) => c.(buf := rest, applied := c.applied + [st])
  }

  function Flatten(chunks: seq<string>): string {
    if chunks == [] then "" else Flatten(Init(chunks)) + Last(chunks)
  }

  /** The read loop of connectEvents over the chunks that the network
      delivers. The result depends on the text alone. */
  method Consume<S>(decode: string -> Option<S>, chunks: seq<string>) returns (applied: seq<S>, dead: bool, buf: string)
    ensures var r := Drain(decode, Client([], Flatten(chunks), false));
      applied == r.applied && dead == r.dead && (!dead ==> buf == r.buf)
  {
    applied, dead, buf := [], false, "";
    assert chunks[..0] == [];
    for i := 0 to |chunks|
      invariant !dead && IndexOfBreak(buf).None?
      invariant Client(applied, buf, false) == Drain(decode, Client([], Flatten(chunks[..i]), false))
    {
      assert Init(chunks[..i + 1]) == chunks[..i];
      DrainMore(decode, Client([], Flatten(chunks[..i]), false), chunks[i]);
      buf := buf + chunks[i];
      ghost var goal := Drain(decode, Client(applied, buf, false));
      while true
        invariant Drain(decode, Client(applied, buf, dead)) == goal
        decreases |buf|
      {
        var idx := IndexOfBreak(buf);
        if idx.None? { break; }
        var chunk := buf[..idx.value];
        buf := buf[idx.value + 2..];
        var dataLine := DataOf(chunk);
        if dataLine.Some? {
          var st := decode(dataLine.value);
          if st.None? {
            dead := true;
            DeadStays(decode, Flatten(chunks[..i + 1]), chunks, i + 1);
            return;
          }
          applied := applied + [st.value];
        }
      }
    }
    assert chunks[..|chunks|] == chunks;
  }

  // ---------- Chunking does not matter ----------

  /** A break that is found in a prefix is the first break of the whole. */
  lemma BreakInPrefix(a: string, b: string)
    requires IndexOfBreak(a).Some?
    ensures IndexOfBreak(a + b) == IndexOfBreak(a)
  {
    var k, m := IndexOfBreak(a).value, IndexOfBreak(a + b);
    assert BreakAt(a + b, k);
    assert forall j :: 0 <= j < k ==> (BreakAt(a + b, j) ==> BreakAt(a, j));
    assert m.Some?;
  }

  /** Draining early changes nothing: more text can be added before or after. */
  lemma {:induction false} DrainMore<S>(decode: string -> Option<S>, c: Client<S>, more: string)
    ensures var d := Drain(decode, c);
      var late := Drain(decode, c.(buf := c.buf + more));
      var early := Drain(decode, d.(buf := d.buf + more));
      late.applied == early.applied && late.dead == early.dead && (!late.dead ==> late == early)
    decreases |c.buf|
  {
    if !c.dead && IndexOfBreak(c.buf).Some? {
      var idx := IndexOfBreak(c.buf).value;
      BreakInPrefix(c.buf, more);
      assert (c.buf + more)[..idx] == c.buf[..idx];
      assert (c.buf + more)[idx + 2..] == c.buf[idx + 2..] + more;
      assert Frame(decode, c.(buf := c.buf + more), idx)
          == Frame(decode, c, idx).(buf := Frame(decode, c, idx).buf + more);
      DrainMore(decode, Frame(decode, c, idx), more);
    }
  }

  /** Once a payload fails to parse, nothing that follows is applied. */
  lemma {:induction false} DeadStays<S>(decode: string -> Option<S>, text: string, chunks: seq<string>, k: nat)
    requires k <= |chunks| && text == Flatten(chunks[..k])
    requires Drain(decode, Client([], text, false)).dead
    ensures var r := Drain(decode, Client([], Flatten(chunks), false));
      r.dead && r.applied == Drain(decode, Client([], text, false)).applied
    decreases |chunks| - k
  {
    if k == |chunks| {
      assert chunks[..k] == chunks;
    } else {
      assert Init(chunks[..k + 1]) == chunks[..k];
      DrainMore(decode, Client([], text, false), chunks[k]);
      DeadStays(decode, text + chunks[k], chunks, k + 1);
    }
  }

  // ---------- Any stream ----------

  /** A line of `s` starts at `k`. */
  predicate LineStart(s: string, k: int) {
    0 <= k <= |s| && (k > 0 ==> s[k - 1] == '\n')
  }

  /** A data line starts at `k`, and its text is `data`. */
  predicate DataLineAt(s: string, k: int, data: string) {
    && LineStart(s, k) && "data: " + data <= s[k..] && '\n' !in data
    && (k + 6 + |data| < |s| ==> s[k + 6 + |data|] == '\n')
  }

  predicate SomeDataLineAt(s: string, k: int) {
    LineStart(s, k) && "data: " <= s[k..]
  }

  /** The first data line of `s` starts at `k`, and its text is `data`. */
  predicate FirstDataLineAt(s: string, k: int, data: string) {
    DataLineAt(s, k, data) && forall j :: 0 <= j < k ==> !SomeDataLineAt(s, j)
  }

  lemma DataLineIsLine(s: string, k: int, data: string)
    ensures DataLineAt(s, k, data) ==> SomeDataLineAt(s, k)
    ensures SomeDataLineAt(s, k) ==> 0 <= k <= |s|
  {
    if DataLineAt(s, k, data) {
      assert ("data: " + data)[..6] == "data: ";
    }
  }

  /** Of a frame the parser takes the text of the first line that starts with
      "data: ", whatever other lines there are, and nothing if there is none. */
  lemma {:induction false} DataLineIff(chunk: string, data: string)
    ensures DataOf(chunk) == Some(data) <==> exists k :: FirstDataLineAt(chunk, k, data)
    ensures DataOf(chunk).Some? <==> HasData(chunk)
    decreases |chunk|
  {
    var end := LineEnd(chunk, 0);
    LineStarts(chunk, end);
    if DATA <= chunk[..end] {
      FirstLineData(chunk, end, data);
    } else {
      NoDataAtFirst(chunk, end);
      if end < |chunk| {
        var rest := chunk[end + 1..];
        DataLineIff(rest, data);
        LaterLine(chunk, end, data);
        LaterData(chunk, end);
      }
    }
  }

  lemma LineStarts(chunk: string, end: nat)
    requires end == LineEnd(chunk, 0)
    ensures forall k :: LineStart(chunk, k) ==> k == 0 || k > end
  {
  }

  lemma FirstLineData(chunk: string, end: nat, data: string)
    requires end == LineEnd(chunk, 0) && DATA <= chunk[..end]
    ensures SomeDataLineAt(chunk, 0)
    ensures (exists k :: FirstDataLineAt(chunk, k, data)) <==> data == chunk[6..end]
  {
    assert chunk[0..] == chunk;
    assert "data: " + chunk[6..end] == chunk[..end];
    if DataLineAt(chunk, 0, data) {
      assert ("data: " + data)[6..] == data == chunk[6..6 + |data|];
    }
    if data == chunk[6..end] { assert FirstDataLineAt(chunk, 0, data); }
    if k :| FirstDataLineAt(chunk, k, data) {
      assert SomeDataLineAt(chunk, 0);
      assert k == 0;
    }
  }

  lemma NoDataAtFirst(chunk: string, end: nat)
    requires end == LineEnd(chunk, 0) && !(DATA <= chunk[..end])
    ensures !SomeDataLineAt(chunk, 0)
    ensures end == |chunk| ==> forall k :: !SomeDataLineAt(chunk, k)
  {
    LineStarts(chunk, end);
    assert chunk[0..] == chunk;
  }

  /** The lines after the first are the lines of the rest. */
  lemma RestLine(chunk: string, end: nat, data: string, k: int)
    requires end == LineEnd(chunk, 0) && end < |chunk|
    ensures var rest := chunk[end + 1..];
      && (SomeDataLineAt(rest, k) ==> SomeDataLineAt(chunk, k + end + 1))
      && (DataLineAt(rest, k, data) ==> DataLineAt(chunk, k + end + 1, data))
      && (SomeDataLineAt(chunk, k + end + 1) && k >= 0 ==> SomeDataLineAt(rest, k))
      && (DataLineAt(chunk, k + end + 1, data) && k >= 0 ==> DataLineAt(rest, k, data))
  {
    var rest := chunk[end + 1..];
    if 0 <= k <= |rest| {
      assert rest[k..] == chunk[k + end + 1..] && (LineStart(rest, k) <==> LineStart(chunk, k + end + 1));
    }
  }

  lemma NoneBefore(chunk: string, end: nat, data: string)
    requires end == LineEnd(chunk, 0) && end < |chunk| && !SomeDataLineAt(chunk, 0)
    ensures forall j :: j <= end ==> !SomeDataLineAt(chunk, j)
    ensures forall j :: j <= end ==> !DataLineAt(chunk, j, data)
  {
    LineStarts(chunk, end);
    forall j | j <= end
      ensures !SomeDataLineAt(chunk, j) && !DataLineAt(chunk, j, data)
    {
      DataLineIsLine(chunk, j, data);
    }
  }

  /** The first data line of the rest is that of the whole. */
  lemma LaterLine(chunk: string, end: nat, data: string)
    requires end == LineEnd(chunk, 0) && end < |chunk| && !SomeDataLineAt(chunk, 0)
    ensures var rest := chunk[end + 1..];
      (exists k :: FirstDataLineAt(rest, k, data)) <==> exists k :: FirstDataLineAt(chunk, k, data)
  {
    hide SomeDataLineAt, DataLineAt, FirstDataLineAt, LineEnd;
    var rest := chunk[end + 1..];
    if k :| FirstDataLineAt(rest, k, data) {
      LaterIsFirst(chunk, end, data, k);
    } else if k :| FirstDataLineAt(chunk, k, data) {
      FirstIsLater(chunk, end, data, k);
    }
  }

  ghost predicate HasData(s: string) {
    exists k :: SomeDataLineAt(s, k)
  }

  lemma LaterData(chunk: string, end: nat)
    requires end == LineEnd(chunk, 0) && end < |chunk| && !SomeDataLineAt(chunk, 0)
    ensures HasData(chunk[end + 1..]) <==> HasData(chunk)
  {
    hide SomeDataLineAt, DataLineAt, LineEnd;
    if HasData(chunk[end + 1..]) {
      var k :| SomeDataLineAt(chunk[end + 1..], k);
      RestLine(chunk, end, "", k);
    } else if HasData(chunk) {
      var k :| SomeDataLineAt(chunk, k);
      NoneBefore(chunk, end, "");
      RestLine(chunk, end, "", k - end - 1);
    }
  }

  lemma LaterIsFirst(chunk: string, end: nat, data: string, k: int)
    requires end == LineEnd(chunk, 0) && end < |chunk| && !SomeDataLineAt(chunk, 0)
    requires FirstDataLineAt(chunk[end + 1..], k, data)
    ensures FirstDataLineAt(chunk, k + end + 1, data)
  {
    hide SomeDataLineAt, DataLineAt, LineEnd;
    var rest := chunk[end + 1..];
    RestLine(chunk, end, data, k);
    forall j | 0 <= j < k + end + 1
      ensures !SomeDataLineAt(chunk, j)
    {
      if j > end {
        RestLine(chunk, end, data, j - end - 1);
        assert !SomeDataLineAt(rest, j - end - 1);
      } else {
        NoneBefore(chunk, end, data);
      }
    }
  }

  lemma FirstIsLater(chunk: string, end: nat, data: string, k: int)
    requires end == LineEnd(chunk, 0) && end < |chunk| && !SomeDataLineAt(chunk, 0)
    requires FirstDataLineAt(chunk, k, data)
    ensures FirstDataLineAt(chunk[end + 1..], k - end - 1, data)
  {
    NoneBefore(chunk, end, data);
    RestLine(chunk, end, data, k - end - 1);
    hide SomeDataLineAt, DataLineAt, LineEnd;
    var rest := chunk[end + 1..];
    forall j | 0 <= j < k - end - 1
      ensures !SomeDataLineAt(rest, j)
    {
      RestLine(chunk, end, data, j);
    }
  }

  /** Frames as a stream sends them, each ended by a blank line, and then `tail`. */
  function Framed(frames: seq<string>, tail: string): string {
    if frames == [] then tail else frames[0] + "\n\n" + Framed(frames[1..], tail)
  }

  /** `f` holds no blank line, not even with the one that ends it. */
  predicate OneFrame(f: string) {
    IndexOfBreak(f + "\n\n") == Some(|f|)
  }

  /** What the frames deliver: the payload of each that has one and parses, up to the
      first that does not parse. */
  function Deliveries<S>(decode: string -> Option<S>, frames: seq<string>): (seq<S>, bool) {
    if frames == [] then ([], false)
    else
      match DataOf(frames[0])
      case None => Deliveries(decode, frames[1..])
      case Some(data) =>
        match decode(data)
        case None => ([], true)
        case Some(st) =>
          var (more, dead) := Deliveries(decode, frames[1..]);
          ([st] + more, dead)
  }

  /** Any stream at all is frames and a rest without a blank line, and the client
      delivers what the frames deliver, one by one, and keeps the rest. */
  lemma {:induction false} FramesAreDelivered<S>(
    decode: string -> Option<S>, before: seq<S>, frames: seq<string>, tail: string)
    requires IndexOfBreak(tail).None? && forall f :: f in frames ==> OneFrame(f)
    ensures var r := Drain(decode, Client(before, Framed(frames, tail), false));
      var (applied, dead) := Deliveries(decode, frames);
      r.applied == before + applied && r.dead == dead && (!dead ==> r.buf == tail)
    decreases |frames|
  {
    hide Drain, DataOf, IndexOfBreak, OneFrame;
    if frames == [] {
      NothingToDrain(decode, before, tail);
      assert before + [] == before;
    } else {
      var f := frames[0];
      assert OneFrame(f);
      FrameStep(decode, before, f, Framed(frames[1..], tail));
      match DataOf(f) {
        case None => FramesAreDelivered(decode, before, frames[1..], tail);
        case Some(data) =>
          if decode(data).Some? {
            var st := decode(data).value;
            FramesAreDelivered(decode, before + [st], frames[1..], tail);
            var more := Deliveries(decode, frames[1..]).0;
            assert before + [st] + more == before + ([st] + more);
          } else {
            assert before + [] == before;
          }
      }
    }
  }

  lemma NothingToDrain<S>(decode: string -> Option<S>, before: seq<S>, tail: string)
    requires IndexOfBreak(tail).None?
    ensures Drain(decode, Client(before, tail, false)) == Client(before, tail, false)
  {
  }

  lemma FrameStep<S>(decode: string -> Option<S>, before: seq<S>, f: string, rest: string)
    requires OneFrame(f)
    ensures Drain(decode, Client(before, f + "\n\n" + rest, false)) ==
      match DataOf(f)
      case None => Drain(decode, Client(before, rest, false))
      case Some(data) =>
        if decode(data).None? then Client(before, rest, true)
        else Drain(decode, Client(before + [decode(data).value], rest, false))
  {
    var text := f + "\n\n" + rest;
    BreakInPrefix(f + "\n\n", rest);
    assert text == (f + "\n\n") + rest && text[..|f|] == f && text[|f| + 2..] == rest;
    hide IndexOfBreak, DataOf;
  }

  lemma {:induction false} EveryStreamIsFramed(text: string) returns (frames: seq<string>, tail: string)
    ensures Framed(frames, tail) == text
    ensures IndexOfBreak(tail).None? && forall f :: f in frames ==> OneFrame(f)
    decreases |text|
  {
    match IndexOfBreak(text)
    case None =>
      frames, tail := [], text;
    case Some(idx) =>
      var f := text[..idx];
      FirstFrame(text, idx);
      var more;
      more, tail := EveryStreamIsFramed(text[idx + 2..]);
      frames := [f] + more;
      assert frames[1..] == more;
      assert text == f + "\n\n" + text[idx + 2..];
  }

  lemma FirstFrame(text: string, idx: nat)
    requires IndexOfBreak(text) == Some(idx)
    ensures OneFrame(text[..idx])
  {
    var f := text[..idx] + "\n\n";
    assert f == text[..idx + 2];
    assert BreakAt(f, idx);
    assert forall k :: 0 <= k < idx ==> (BreakAt(f, k) ==> BreakAt(text, k));
  }

  // ---------- The server ----------

  function PrintFrame(payload: string): string {
    HEADER + DATA + payload + "\n\n"
  }

  function Print(payloads: seq<string>): string {
    if payloads == [] then "" else PrintFrame(payloads[0]) + Print(payloads[1..])
  }

  /** The payloads that json.Marshal produces; an event that it rejects is
      skipped. */
  function Payloads<S>(encode: S -> Option<string>, events: seq<S>): seq<string> {
    if events == [] then []
    else (match encode(events[0]) case None => [] case Some(p) => [p]) + Payloads(encode, events[1..])
  }

  lemma PayloadsStep<S>(encode: S -> Option<string>, events: seq<S>)
    requires events != []
    ensures encode(events[0]).None? ==> Payloads(encode, events) == Payloads(encode, events[1..])
    ensures encode(events[0]).Some? ==>
      && Payloads(encode, events) == [encode(events[0]).value] + Payloads(encode, events[1..])
      && Payloads(encode, events)[1..] == Payloads(encode, events[1..])
  {
  }

  /** The loop of handleEvents over the events it takes from the channel. */
  method Serve<S>(encode: S -> Option<string>, events: seq<S>) returns (body: string)
    ensures body == Print(Payloads(encode, events))
  {
    body := "";
    for i := 0 to |events|
      invariant body + Print(Payloads(encode, events[i..])) == Print(Payloads(encode, events))
    {
      var b := encode(events[i]);
      assert events[i..][1..] == events[i + 1..];
      PayloadsStep(encode, events[i..]);
      if b.Some? {
        body := body + PrintFrame(b.value);
      }
    }
  }

  // ---------- Round trip ----------

  predicate OneLine(s: string) {
    forall k :: 0 <= k < |s| ==> s[k] != '\n'
  }

  /** A printed frame is one frame of the parser, and its data line is the
      payload. */
  lemma FrameRoundTrip(payload: string, rest: string)
    requires OneLine(payload)
    ensures PrintFrame(payload) == "event: relay\ndata: " + payload + "\n\n"
    ensures var text := PrintFrame(payload) + rest;
      && IndexOfBreak(text) == Some(|HEADER| + |DATA| + |payload|)
      && DataOf(text[..|HEADER| + |DATA| + |payload|]) == Some(payload)
      && text[|PrintFrame(payload)|..] == rest
  {
    var n := |HEADER| + |DATA| + |payload|;
    var text := PrintFrame(payload) + rest;
    var chunk := text[..n];
    assert chunk == HEADER + DATA + payload;
    assert BreakAt(text, n);
    forall k | 0 <= k < n
      ensures !BreakAt(text, k)
    {
      if k == 12 {
        assert text[13] == 'd';
      } else {
        NewlineInFrame(payload, k);
      }
    }
    assert IndexOfBreak(text) == Some(n);
    assert LineEnd(chunk, 0) == 12 by { HeaderLine(chunk, 0); }
    assert chunk[..12] == "event: relay";
    assert chunk[13..] == DATA + payload;
    assert LineEnd(DATA + payload, 0) == |DATA + payload| by { WholeLine(DATA + payload); }
    assert (DATA + payload)[..|DATA + payload|] == DATA + payload;
    assert (DATA + payload)[|DATA|..] == payload;
  }

  lemma NewlineInFrame(payload: string, k: nat)
    requires OneLine(payload) && k < |HEADER| + |DATA| + |payload| && k != 12
    ensures (HEADER + DATA + payload)[k] != '\n'
  {
    if k >= |HEADER| + |DATA| { assert (HEADER + DATA + payload)[k] == payload[k - |HEADER| - |DATA|]; }
  }

  lemma HeaderLine(chunk: string, k: nat)
    requires HEADER <= chunk && k <= 12
    ensures LineEnd(chunk, k) == 12
    decreases 12 - k
  {
    assert chunk[..13] == HEADER;
    assert chunk[k] == HEADER[k];
    if k < 12 { HeaderLine(chunk, k + 1); }
  }

  lemma WholeLine(s: string)
    requires OneLine(s)
    ensures LineEnd(s, 0) == |s|
  {
  }

  function DecodeAll<S>(decode: string -> Option<S>, payloads: seq<string>): seq<S>
    requires forall p :: p in payloads ==> decode(p).Some?
  {
    if payloads == [] then [] else [decode(payloads[0]).value] + DecodeAll(decode, payloads[1..])
  }

  /** A printed frame at the head of the buffer is one turn of the loop. */
  lemma DrainFrame<S>(decode: string -> Option<S>, before: seq<S>, payload: string, rest: string)
    requires OneLine(payload) && decode(payload).Some?
    ensures Drain(decode, Client(before, PrintFrame(payload) + rest, false))
         == Drain(decode, Client(before + [decode(payload).value], rest, false))
  {
    hide OneLine, DataOf, IndexOfBreak;
    FrameRoundTrip(payload, rest);
    assert |PrintFrame(payload)| == |HEADER| + |DATA| + |payload| + 2;
  }

  lemma DrainTail<S>(decode: string -> Option<S>, before: seq<S>, tail: string)
    requires IndexOfBreak(tail).None?
    ensures Drain(decode, Client(before, Print([]) + tail, false)) == Client(before, tail, false)
  {
    hide IndexOfBreak;
    assert Print([]) + tail == tail;
  }

  lemma PrintSplit(payloads: seq<string>, tail: string)
    requires payloads != []
    ensures Print(payloads) + tail == PrintFrame(payloads[0]) + (Print(payloads[1..]) + tail)
  {
  }

  lemma DecodeSplit<S>(decode: string -> Option<S>, before: seq<S>, payloads: seq<string>)
    requires payloads != [] && forall p :: p in payloads ==> decode(p).Some?
    ensures before + [decode(payloads[0]).value] + DecodeAll(decode, payloads[1..])
         == before + DecodeAll(decode, payloads)
  {
  }

  /** The parser undoes the printer, with any text left over kept for later. */
  lemma {:induction false} DrainPrinted<S>(
    decode: string -> Option<S>, before: seq<S>, payloads: seq<string>, tail: string)
    requires forall p :: p in payloads ==> OneLine(p) && decode(p).Some?
    requires IndexOfBreak(tail).None?
    ensures Drain(decode, Client(before, Print(payloads) + tail, false))
         == Client(before + DecodeAll(decode, payloads), tail, false)
    decreases |payloads|
  {
    hide PrintFrame, Drain, OneLine, IndexOfBreak, Print;
    if payloads == [] {
      DrainTail(decode, before, tail);
      assert before + DecodeAll(decode, payloads) == before;
    } else {
      PrintSplit(payloads, tail);
      DrainFrame(decode, before, payloads[0], Print(payloads[1..]) + tail);
      DrainPrinted(decode, before + [decode(payloads[0]).value], payloads[1..], tail);
      DecodeSplit(decode, before, payloads);
    }
  }

  /** A proper prefix of one frame contains no complete frame. */
  lemma PartialFrame(payload: string, n: nat)
    requires OneLine(payload) && n < |PrintFrame(payload)|
    ensures IndexOfBreak(PrintFrame(payload)[..n]).None?
  {
    var frame := PrintFrame(payload);
    FrameRoundTrip(payload, "");
    assert frame + "" == frame;
    forall k
      ensures !BreakAt(frame[..n], k)
    {
      if BreakAt(frame[..n], k) { assert BreakAt(frame, k); }
    }
  }

  /** Cut anywhere, a printed stream is some complete frames and a part of the
      next one. */
  lemma {:induction false} CutStream(payloads: seq<string>, n: nat) returns (k: nat, tail: string)
    requires forall p :: p in payloads ==> OneLine(p)
    requires n <= |Print(payloads)|
    ensures k <= |payloads| && Print(payloads)[..n] == Print(payloads[..k]) + tail
    ensures IndexOfBreak(tail).None?
    ensures |Print(payloads[..k])| <= n && (k < |payloads| ==> n < |Print(payloads[..k + 1])|)
    decreases |payloads|
  {
    if payloads == [] {
      k, tail := 0, "";
    } else {
      var f := PrintFrame(payloads[0]);
      assert Print(payloads) == f + Print(payloads[1..]);
      if n < |f| {
        k, tail := 0, f[..n];
        PartialFrame(payloads[0], n);
        assert Print(payloads)[..n] == tail;
        assert payloads[..1] == [payloads[0]];
        assert payloads[..1][1..] == [];
        assert Print(payloads[..1]) == f + Print([]);
      } else {
        var j, t := CutStream(payloads[1..], n - |f|);
        k, tail := j + 1, t;
        assert Print(payloads)[..n] == f + Print(payloads[1..])[..n - |f|];
        assert payloads[..k][0] == payloads[0] && payloads[..k][1..] == payloads[1..][..j];
        if k < |payloads| {
          assert payloads[..k + 1][1..] == payloads[1..][..j + 1];
        }
      }
    }
  }

  /** Every prefix of the stream delivers exactly the complete frames in it. */
  lemma PrefixDeliversCompleteFrames<S>(decode: string -> Option<S>, payloads: seq<string>, n: nat) returns (k: nat)
    requires forall p :: p in payloads ==> OneLine(p) && decode(p).Some?
    requires n <= |Print(payloads)|
    ensures k <= |payloads|
    ensures |Print(payloads[..k])| <= n && (k < |payloads| ==> n < |Print(payloads[..k + 1])|)
    ensures var r := Drain(decode, Client([], Print(payloads)[..n], false));
      r.applied == DecodeAll(decode, payloads[..k]) && !r.dead
  {
    var tail;
    k, tail := CutStream(payloads, n);
    DrainPrinted(decode, [], payloads[..k], tail);
    assert [] + DecodeAll(decode, payloads[..k]) == DecodeAll(decode, payloads[..k]);
  }

  // ---------- End to end ----------

  /** Encoding and decoding round-trip, and an encoding has no raw newline. */
  ghost predicate Codec<S(!new)>(encode: S -> Option<string>, decode: string -> Option<S>) {
    forall st :: encode(st).Some? ==> OneLine(encode(st).value) && decode(encode(st).value) == Some(st)
  }

  function Encodable<S>(encode: S -> Option<string>, events: seq<S>): seq<S> {
    if events == [] then []
    else (if encode(events[0]).Some? then [events[0]] else []) + Encodable(encode, events[1..])
  }

  lemma {:induction false} PayloadsDecode<S(!new)>(
    encode: S -> Option<string>, decode: string -> Option<S>, events: seq<S>)
    requires Codec(encode, decode)
    ensures forall p :: p in Payloads(encode, events) ==> OneLine(p) && decode(p).Some?
    ensures DecodeAll(decode, Payloads(encode, events)) == Encodable(encode, events)
  {
    if events == [] {
    } else {
      PayloadsDecode(encode, decode, events[1..]);
      PayloadsStep(encode, events);
      hide Payloads, OneLine;
      assert encode(events[0]).Some? ==> OneLine(encode(events[0]).value);
    }
  }

  /** The events that can be encoded are among the events, in order; if all can be,
      they are all of them. */
  lemma {:induction false} EncodableIs<S>(encode: S -> Option<string>, events: seq<S>)
    ensures forall e :: e in Encodable(encode, events) <==> e in events && encode(e).Some?
    ensures (forall e :: e in events ==> encode(e).Some?) ==> Encodable(encode, events) == events
  {
    if events == [] {
    } else {
      EncodableIs(encode, events[1..]);
      assert events == [events[0]] + events[1..];
    }
  }

  /** However the network splits the stream, the client applies exactly the
      events that the server could encode, in order: all of them, if it could. */
  lemma EventsArriveInOrder<S(!new)>(
    encode: S -> Option<string>, decode: string -> Option<S>, events: seq<S>, chunks: seq<string>)
    requires Codec(encode, decode)
    requires Flatten(chunks) == Print(Payloads(encode, events))
    ensures Drain(decode, Client([], Flatten(chunks), false)) == Client(Encodable(encode, events), "", false)
    ensures forall e :: e in Encodable(encode, events) <==> e in events && encode(e).Some?
    ensures (forall e :: e in events ==> encode(e).Some?) ==> Encodable(encode, events) == events
  {
    EncodableIs(encode, events);
    var payloads := Payloads(encode, events);
    PayloadsDecode(encode, decode, events);
    DrainPrinted(decode, [], payloads, "");
    assert Print(payloads) + "" == Print(payloads);
    assert [] + DecodeAll(decode, payloads) == Encodable(encode, events);
  }
}
