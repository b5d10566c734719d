/**
 The incremental server-sent-events decoder (src/ai/sse.ts): a buffer cut into
 lines at LF, CR or CRLF, and the fields of the event being collected.

 Text arrives in chunks cut anywhere between characters. The decoder is compared
 with a reference that reads the whole text one character at a time (the line
 rules of section 9.2.6 of the WHATWG HTML standard).
 */
module Sse {
  import opened Prelude
  import opened Utf8

  datatype Event = Event(data: string, name: Option<string>, id: Option<string>, retry: Option<nat>)

  /** The two uses of the `sse_buffer_limit` error. */
  datatype LimitError = BufferLimit | EventLimit

  /** The event being collected. */
  datatype Fields = Fields(
    dataLines: seq<string>, name: Option<string>, id: Option<string>, retry: Option<nat>, bytes: nat)

  const NoFields := Fields([], None, None, None, 0)

  // ------------------------------------------------------------ lines to events

  function JoinLines(lines: seq<string>): string {
    if lines == [] then ""
    else if |lines| == 1 then lines[0]
    else lines[0] + "\n" + JoinLines(lines[1..])
  }

  function DropFinalNewline(s: string): string {
    if s != "" && s[|s| - 1] == '\n' then s[..|s| - 1] else s
  }

  predicate IsDigit(c: char) {
    '0' <= c <= '9'
  }

  predicate IsDecimal(s: string) {
    s != "" && forall c :: c in s ==> IsDigit(c)
  }

  function ParseDecimal(s: string): nat
    requires forall c :: c in s ==> IsDigit(c)
  {
    if s == "" then 0
    else
      var last := s[|s| - 1];
      assert IsDigit(last);
      ParseDecimal(s[..|s| - 1]) * 10 + (last as int - '0' as int)
  }

  /** End of an event: without data everything collected is dropped. */
  function Dispatch(f: Fields): (Fields, Option<Event>) {
    if f.dataLines == [] then (NoFields, None)
    else (NoFields, Some(Event(DropFinalNewline(JoinLines(f.dataLines)), f.name, f.id, f.retry)))
  }

  function FieldOf(line: string): string {
    match IndexOf(line, ':')
    case None => line
    case Some(colon) => line[..colon]
  }

  function ValueOf(line: string): string {
    match IndexOf(line, ':')
    case None => ""
    case Some(colon) =>
      var v := line[colon + 1..];
      if v != "" && v[0] == ' ' then v[1..] else v
  }

  function ProcessLine(f: Fields, line: string): (Fields, Option<Event>) {
    if line == "" then Dispatch(f)
    else if line[0] == ':' then (f, None)
    else
      var field, value := FieldOf(line), ValueOf(line);
      if field == "data" then (f.(dataLines := f.dataLines + [value]), None)
      else if field == "event" then (f.(name := Some(value)), None)
      else if field == "id" && '\0' !in value then (f.(id := Some(value)), None)
      else if field == "retry" && IsDecimal(value) then (f.(retry := Some(ParseDecimal(value))), None)
      else (f, None)
  }

  function AsSeq<T>(x: Option<T>): seq<T> {
    if x.Some? then [x.value] else []
  }

  /** What a run of the line processor has produced; `ok` turns false at the
      line that makes an event too large, and nothing happens after that. */
  datatype Sink = Sink(fields: Fields, events: seq<Event>, ok: bool)

  /** One line under the size limit: it counts its bytes and one for its break. */
  function Processed(maxEvent: nat, f: Fields, line: string): (Fields, Result<Option<Event>, LimitError>) {
    var g := f.(bytes := f.bytes + ByteLength(line) + 1);
    if g.bytes > maxEvent then (g, Failure(EventLimit))
    else
      var (h, event) := ProcessLine(g, line);
      (h, Success(event))
  }

  function FeedLine(maxEvent: nat, k: Sink, line: string): Sink {
    if !k.ok then k
    else
      match Processed(maxEvent, k.fields, line)
      case (g, Failure(_)) => Sink(g, k.events, false)
      case (g, Success(event)) => Sink(g, k.events + AsSeq(event), true)
  }

  function Feed(maxEvent: nat, k: Sink, lines: seq<string>): Sink
    decreases |lines|
  {
    if lines == [] then k else Feed(maxEvent, FeedLine(maxEvent, k, lines[0]), lines[1..])
  }

  lemma {:induction false} FeedConcat(maxEvent: nat, k: Sink, a: seq<string>, b: seq<string>)
    ensures Feed(maxEvent, k, a + b) == Feed(maxEvent, Feed(maxEvent, k, a), b)
    decreases |a|
  {
    if a == [] {
      assert a + b == b;
    } else {
      assert (a + b)[0] == a[0] && (a + b)[1..] == a[1..] + b;
      FeedConcat(maxEvent, FeedLine(maxEvent, k, a[0]), a[1..], b);
    }
  }

  function Fresh(f: Fields): Sink {
    Sink(f, [], true)
  }

  function Behind(events: seq<Event>, k: Sink): Sink {
    k.(events := events + k.events)
  }

  lemma FeedLineBehind(maxEvent: nat, events: seq<Event>, k: Sink, line: string)
    ensures FeedLine(maxEvent, Behind(events, k), line) == Behind(events, FeedLine(maxEvent, k, line))
  {
  }

  // ------------------------------------------------------------ the reference

  /** Reading character by character: finished lines, the line being read, and
      whether the last character was a CR, so that an LF behind it is skipped. */
  datatype Scan = Scan(lines: seq<string>, current: string, afterCR: bool)

  function ScanChar(s: Scan, c: char): Scan {
    if c == '\n' && s.afterCR then s.(afterCR := false)
    else if c == '\n' || c == '\r' then Scan(s.lines + [s.current], "", c == '\r')
    else Scan(s.lines, s.current + [c], false)
  }

  function ScanText(s: Scan, text: string): Scan
    decreases |text|
  {
    if text == "" then s else ScanText(ScanChar(s, text[0]), text[1..])
  }

  const ScanStart := Scan([], "", false)

  function ReferenceLines(text: string): seq<string> {
    var s := ScanText(ScanStart, text);
    s.lines + TailLines(s.current)
  }

  function TailLines(current: string): seq<string> {
    if current == "" then [] else [current]
  }

  /** All events of a whole text; a failure when one event is too large. */
  function Reference(maxEvent: nat, text: string): Result<seq<Event>, LimitError> {
    var r := Feed(maxEvent, Fresh(NoFields), ReferenceLines(text));
    if r.ok then Success(r.events + AsSeq(Dispatch(r.fields).1)) else Failure(EventLimit)
  }

  /** What a decoder must keep of the text read so far: the unfinished line, or,
      when a CR came last, the line it ended and that CR. */
  function Held(text: string): string {
    var s := ScanText(ScanStart, text);
    if s.afterCR && s.lines != [] then s.lines[|s.lines| - 1] + "\r" else s.current
  }

  /** At each chunk, what is held plus the chunk fits the buffer. */
  predicate ChunksFit(maxBuffer: nat, chunks: seq<string>)
    decreases |chunks|
  {
    chunks == [] ||
    var n := |chunks| - 1;
    && ChunksFit(maxBuffer, chunks[..n])
    && (chunks[n] == "" || ByteLength(Held(Concat(chunks[..n]))) + ByteLength(chunks[n]) <= maxBuffer)
  }

  lemma {:induction false} ScanConcat(s: Scan, a: string, b: string)
    ensures ScanText(s, a + b) == ScanText(ScanText(s, a), b)
    decreases |a|
  {
    if a == "" {
      assert a + b == b;
    } else {
      assert (a + b)[0] == a[0] && (a + b)[1..] == a[1..] + b;
      ScanConcat(ScanChar(s, a[0]), a[1..], b);
    }
  }

  predicate NoBreak(s: string) {
    '\n' !in s && '\r' !in s
  }

  lemma {:induction false} ScanPlain(s: Scan, text: string)
    requires NoBreak(text)
    ensures ScanText(s, text) == if text == "" then s else Scan(s.lines, s.current + text, false)
    decreases |text|
  {
    if text != "" {
      assert text[0] in text;
      assert NoBreak(text[1..]);
      ScanPlain(ScanChar(s, text[0]), text[1..]);
      assert s.current + [text[0]] + text[1..] == s.current + text;
    }
  }

  /** Lines already finished are never looked at again. */
  lemma {:induction false} ScanPrefix(lines: seq<string>, s: Scan, text: string)
    ensures var r := ScanText(s, text);
            ScanText(s.(lines := lines + s.lines), text) == r.(lines := lines + r.lines)
    decreases |text|
  {
    if text != "" {
      var s' := ScanChar(s, text[0]);
      assert lines + (s.lines + [s.current]) == (lines + s.lines) + [s.current];
      assert ScanChar(s.(lines := lines + s.lines), text[0]) == s'.(lines := lines + s'.lines);
      ScanPrefix(lines, s', text[1..]);
    }
  }

  // ------------------------------------------------------------ the decoder

  /** The first LF or CR. */
  function FirstBreak(s: string): (r: Option<nat>)
    ensures r.None? <==> NoBreak(s)
    ensures r.Some? ==> r.value < |s| && s[r.value] in "\r\n" && NoBreak(s[..r.value])
  {
    match (IndexOf(s, '\n'), IndexOf(s, '\r'))
    case (None, None) => None
    case (None, Some(cr)) => NoneBefore(s, '\n', cr); Some(cr)
    case (Some(lf), None) => NoneBefore(s, '\r', lf); Some(lf)
    case (Some(lf), Some(cr)) =>
      if lf <= cr then TakeTake(s, '\r', lf, cr); Some(lf) else TakeTake(s, '\n', cr, lf); Some(cr)
  }

  lemma NoneBefore(s: string, c: char, n: nat)
    requires c !in s && n <= |s|
    ensures c !in s[..n]
  {
  }

  lemma TakeTake(s: string, c: char, m: nat, n: nat)
    requires m <= n <= |s| && c !in s[..n]
    ensures c !in s[..m]
  {
  }

  /** Where the text behind the line break at `end` starts. */
  function AfterBreak(s: string, end: nat): (n: nat)
    requires end < |s|
    ensures end < n <= |s|
  {
    if s[end] == '\r' && end + 1 < |s| && s[end + 1] == '\n' then end + 2 else end + 1
  }

  /** No further line can be taken: no break is left, or only a final CR that
      may be the first half of a CRLF. */
  predicate Settled(s: string, final: bool) {
    match FirstBreak(s)
    case None => true
    case Some(end) => !final && end == |s| - 1 && s[end] == '\r'
  }

  datatype Drained = Drained(buffer: string, sink: Sink)

  function Drain(maxEvent: nat, buffer: string, k: Sink, final: bool): Drained
    decreases |buffer|
  {
    if !k.ok || Settled(buffer, final) then Drained(buffer, k)
    else
      var end := FirstBreak(buffer).value;
      Drain(maxEvent, buffer[AfterBreak(buffer, end)..], FeedLine(maxEvent, k, buffer[..end]), final)
  }

  /** A decoder as a value. */
  datatype Decoder = Decoder(buffer: string, fields: Fields)

  const NewDecoder := Decoder("", NoFields)

  function Pushed(maxBuffer: nat, maxEvent: nat, d: Decoder, chunk: string): (Decoder, Result<seq<Event>, LimitError>) {
    if chunk == "" then (d, Success([]))
    else if ByteLength(d.buffer) + ByteLength(chunk) > maxBuffer then (d, Failure(BufferLimit))
    else
      var r := Drain(maxEvent, d.buffer + chunk, Fresh(d.fields), false);
      (Decoder(r.buffer, r.sink.fields), if r.sink.ok then Success(r.sink.events) else Failure(EventLimit))
  }

  /** The unfinished line at the end of the stream is processed like any other. */
  function Closing(maxEvent: nat, k: Sink, buffer: string): Sink {
    if buffer == "" then k else FeedLine(maxEvent, k, buffer)
  }

  function Finished(maxEvent: nat, d: Decoder): (Decoder, Result<seq<Event>, LimitError>) {
    var r := Drain(maxEvent, d.buffer, Fresh(d.fields), true);
    if !r.sink.ok then (Decoder(r.buffer, r.sink.fields), Failure(EventLimit))
    else
      var last := Closing(maxEvent, r.sink, r.buffer);
      if !last.ok then (Decoder("", last.fields), Failure(EventLimit))
      else
        var (f, event) := Dispatch(last.fields);
        (Decoder("", f), Success(last.events + AsSeq(event)))
  }

  /** The chunks of a stream pushed one after another. */
  function PushAll(maxBuffer: nat, maxEvent: nat, chunks: seq<string>): (Decoder, Result<seq<Event>, LimitError>)
    decreases |chunks|
  {
    if chunks == [] then (NewDecoder, Success([]))
    else
      var n := |chunks| - 1;
      var (d, before) := PushAll(maxBuffer, maxEvent, chunks[..n]);
      if before.Failure? then (d, before)
      else
        var (e, last) := Pushed(maxBuffer, maxEvent, d, chunks[n]);
        (e, if last.Failure? then last else Success(before.value + last.value))
  }

  function DecodeChunks(maxBuffer: nat, maxEvent: nat, chunks: seq<string>): Result<seq<Event>, LimitError> {
    var (d, pushed) := PushAll(maxBuffer, maxEvent, chunks);
    if pushed.Failure? then pushed
    else
      var last := Finished(maxEvent, d).1;
      if last.Failure? then last else Success(pushed.value + last.value)
  }

  lemma {:induction false} DrainBehind(maxEvent: nat, events: seq<Event>, buffer: string, k: Sink, final: bool)
    ensures var r := Drain(maxEvent, buffer, k, final);
            Drain(maxEvent, buffer, Behind(events, k), final) == Drained(r.buffer, Behind(events, r.sink))
    decreases |buffer|
  {
    if k.ok && !Settled(buffer, final) {
      var end := FirstBreak(buffer).value;
      FeedLineBehind(maxEvent, events, k, buffer[..end]);
      DrainBehind(maxEvent, events, buffer[AfterBreak(buffer, end)..], FeedLine(maxEvent, k, buffer[..end]), final);
    }
  }

  /** The first line of a text that is not settled is the first line of every
      continuation of it. */
  lemma FirstLineKept(a: string, b: string, final: bool)
    requires !Settled(a, false)
    ensures !Settled(a + b, final) && FirstBreak(a + b) == FirstBreak(a)
    ensures var end := FirstBreak(a).value;
            var n := AfterBreak(a, end);
            && (a + b)[..end] == a[..end]
            && AfterBreak(a + b, end) == n && (a + b)[n..] == a[n..] + b
  {
    FirstBreakConcat(a, b);
    var end := FirstBreak(a).value;
    assert (a + b)[..end] == a[..end];
    var n := AfterBreak(a, end);
    assert (a + b)[n..] == a[n..] + b;
  }

  lemma FirstBreakConcat(a: string, b: string)
    requires FirstBreak(a).Some?
    ensures FirstBreak(a + b) == FirstBreak(a)
  {
    var i := FirstBreak(a).value;
    assert (a + b)[i] == a[i] && (a + b)[i] in a + b;
  }

  /** Draining a text and later the rest gives what draining it at once gives. */
  lemma {:induction false} DrainConcat(maxEvent: nat, a: string, b: string, k: Sink, final: bool)
    ensures var r := Drain(maxEvent, a, k, false);
            Drain(maxEvent, a + b, k, final) == Drain(maxEvent, r.buffer + b, r.sink, final)
    decreases |a|
  {
    if k.ok && !Settled(a, false) {
      var end := FirstBreak(a).value;
      FirstLineKept(a, b, final);
      DrainConcat(maxEvent, a[AfterBreak(a, end)..], b, FeedLine(maxEvent, k, a[..end]), final);
    }
  }

  lemma ScanToBreak(text: string, end: nat)
    requires FirstBreak(text) == Some(end)
    ensures ScanText(ScanStart, text) == ScanText(Scan([], text[..end], false), text[end..])
  {
    assert text == text[..end] + text[end..];
    ScanConcat(ScanStart, text[..end], text[end..]);
    ScanPlain(ScanStart, text[..end]);
    assert "" + text[..end] == text[..end];
  }

  /** The state of the reference behind a line break. */
  lemma ScanBreak(text: string, end: nat)
    requires FirstBreak(text) == Some(end)
    ensures ScanText(ScanStart, text)
         == ScanText(Scan([text[..end]], "", text[end] == '\r'), text[end + 1..])
  {
    var line, s := text[..end], Scan([], text[..end], false);
    ScanToBreak(text, end);
    assert text[end..][0] == text[end] && text[end..][1..] == text[end + 1..];
    assert ScanChar(s, text[end]) == Scan([line], "", text[end] == '\r');
  }

  /** Behind a CR, an LF is skipped and anything else is read as usual. */
  lemma ScanAfterCR(lines: seq<string>, text: string)
    ensures var r := ScanText(Scan(lines, "", true), text);
            if text == "" then r == Scan(lines, "", true)
            else r == ScanText(Scan(lines, "", false), if text[0] == '\n' then text[1..] else text)
  {
  }

  /** The reference behind a whole line break, CRLF included. */
  lemma ScanPastBreak(text: string, end: nat)
    requires FirstBreak(text) == Some(end)
    ensures var n := AfterBreak(text, end);
            ScanText(ScanStart, text) ==
            if n == |text| && n == end + 1 && text[end] == '\r' then Scan([text[..end]], "", true)
            else ScanText(Scan([text[..end]], "", false), text[n..])
  {
    ScanBreak(text, end);
    if text[end] == '\r' {
      var rest := text[end + 1..];
      ScanAfterCR([text[..end]], rest);
      if rest != "" && rest[0] == '\n' {
        assert rest[1..] == text[end + 2..];
      }
    }
  }

  /** The reference reads the first line and then the rest on its own. */
  lemma ScanOneLine(text: string, end: nat)
    requires FirstBreak(text) == Some(end)
    ensures var n := AfterBreak(text, end);
            var s, r := ScanText(ScanStart, text), ScanText(ScanStart, text[n..]);
            && s.lines == [text[..end]] + r.lines && s.current == r.current
            && s.afterCR == (if n == |text| then text[end] == '\r' && n == end + 1 else r.afterCR)
  {
    var n, line := AfterBreak(text, end), text[..end];
    ScanPastBreak(text, end);
    assert [line] + [] == [line];
    if n == |text| {
      assert text[n..] == "" && ScanText(ScanStart, "") == ScanStart;
    } else {
      ScanPrefix([line], ScanStart, text[n..]);
    }
  }

  /** The drained lines are the reference's lines, and what is left in the
      buffer is the reference's unfinished line. */
  lemma {:induction false} DrainIsReference(maxEvent: nat, text: string, k: Sink)
    ensures var r := Drain(maxEvent, text, k, true);
            var s := ScanText(ScanStart, text);
            r.sink == Feed(maxEvent, k, s.lines) && (r.sink.ok ==> r.buffer == s.current)
    decreases |text|
  {
    match FirstBreak(text) {
      case None =>
        ScanPlain(ScanStart, text);
      case Some(end) =>
        var n := AfterBreak(text, end);
        ScanOneLine(text, end);
        var rest := ScanText(ScanStart, text[n..]).lines;
        assert ([text[..end]] + rest)[1..] == rest;
        if k.ok {
          DrainIsReference(maxEvent, text[n..], FeedLine(maxEvent, k, text[..end]));
        } else {
          FeedStopped(maxEvent, k, ScanText(ScanStart, text).lines);
        }
    }
  }

  lemma {:induction false} FeedStopped(maxEvent: nat, k: Sink, lines: seq<string>)
    requires !k.ok
    ensures Feed(maxEvent, k, lines) == k
    decreases |lines|
  {
    if lines != [] {
      FeedStopped(maxEvent, k, lines[1..]);
    }
  }

  /** What the decoder keeps between chunks is what must be held: no line break,
      except a final CR. */
  lemma {:induction false} DrainHolds(maxEvent: nat, text: string, k: Sink)
    ensures var r := Drain(maxEvent, text, k, false);
            r.sink.ok ==> r.buffer == Held(text) && Settled(r.buffer, false)
    decreases |text|
  {
    match FirstBreak(text) {
      case None =>
        ScanPlain(ScanStart, text);
      case Some(end) =>
        var n := AfterBreak(text, end);
        if Settled(text, false) {
          ScanOneLine(text, end);
          assert text[n..] == "";
          assert text == text[..end] + "\r";
        } else if k.ok {
          DrainHolds(maxEvent, text[n..], FeedLine(maxEvent, k, text[..end]));
          HeldAfterLine(text, end);
        }
    }
  }

  lemma HeldAfterLine(text: string, end: nat)
    requires FirstBreak(text) == Some(end) && !Settled(text, false)
    ensures Held(text) == Held(text[AfterBreak(text, end)..])
  {
    var n := AfterBreak(text, end);
    ScanOneLine(text, end);
    var s, r := ScanText(ScanStart, text), ScanText(ScanStart, text[n..]);
    AfterCRHasLine(ScanStart, text[n..]);
    if n == |text| {
      assert text[n..] == "";
    } else if r.afterCR {
      assert s.lines[|s.lines| - 1] == r.lines[|r.lines| - 1];
    }
  }

  lemma {:induction false} AfterCRHasLine(s: Scan, text: string)
    requires s.afterCR ==> s.lines != []
    ensures ScanText(s, text).afterCR ==> ScanText(s, text).lines != []
    decreases |text|
  {
    if text != "" {
      AfterCRHasLine(ScanChar(s, text[0]), text[1..]);
    }
  }

  /** Pushing one more chunk behind a text already drained. */
  lemma PushedIsDrain(maxBuffer: nat, maxEvent: nat, text: string, chunk: string)
    requires Drain(maxEvent, text, Fresh(NoFields), false).sink.ok
    ensures var r := Drain(maxEvent, text, Fresh(NoFields), false);
            var (d, last) := Pushed(maxBuffer, maxEvent, Decoder(r.buffer, r.sink.fields), chunk);
            var whole := Drain(maxEvent, text + chunk, Fresh(NoFields), false);
            && (last.Success? <==>
                  (chunk == "" || ByteLength(Held(text)) + ByteLength(chunk) <= maxBuffer) && whole.sink.ok)
            && (last.Success? ==> d == Decoder(whole.buffer, whole.sink.fields) &&
                                  r.sink.events + last.value == whole.sink.events)
  {
    var r := Drain(maxEvent, text, Fresh(NoFields), false);
    DrainHolds(maxEvent, text, Fresh(NoFields));
    DrainConcat(maxEvent, text, chunk, Fresh(NoFields), false);
    if chunk == "" {
      assert text + chunk == text;
      assert r.sink.events + [] == r.sink.events;
    } else {
      assert Behind(r.sink.events, Fresh(r.sink.fields)) == r.sink by {
        assert r.sink.events + [] == r.sink.events;
      }
      DrainBehind(maxEvent, r.sink.events, r.buffer + chunk, Fresh(r.sink.fields), false);
    }
  }

  /** The pushes succeed exactly when every chunk fits and no event is too
      large, and then the decoder is where draining the whole text leaves it. */
  ghost predicate PushesDrain(maxBuffer: nat, maxEvent: nat, chunks: seq<string>) {
    var (d, events) := PushAll(maxBuffer, maxEvent, chunks);
    var r := Drain(maxEvent, Concat(chunks), Fresh(NoFields), false);
    && (events.Success? <==> ChunksFit(maxBuffer, chunks) && r.sink.ok)
    && (events.Success? ==> d == Decoder(r.buffer, r.sink.fields) && events.value == r.sink.events)
  }

  /** One more chunk, told in terms of the chunks before it. */
  lemma OneMore(maxBuffer: nat, maxEvent: nat, before: seq<string>, chunk: string)
    ensures Concat(before + [chunk]) == Concat(before) + chunk
    ensures ChunksFit(maxBuffer, before + [chunk]) <==>
              ChunksFit(maxBuffer, before) &&
              (chunk == "" || ByteLength(Held(Concat(before))) + ByteLength(chunk) <= maxBuffer)
    ensures var (d, first) := PushAll(maxBuffer, maxEvent, before);
            var (e, last) := Pushed(maxBuffer, maxEvent, d, chunk);
            PushAll(maxBuffer, maxEvent, before + [chunk]) ==
            if first.Failure? then (d, first)
            else (e, if last.Failure? then last else Success(first.value + last.value))
  {
    assert (before + [chunk])[..|before|] == before;
    ConcatSnoc(before, chunk);
  }

  lemma PushOneMore(maxBuffer: nat, maxEvent: nat, before: seq<string>, chunk: string, text: string)
    requires text == Concat(before) && PushesDrain(maxBuffer, maxEvent, before)
    ensures PushesDrain(maxBuffer, maxEvent, before + [chunk])
  {
    OneMore(maxBuffer, maxEvent, before, chunk);
    var r := Drain(maxEvent, text, Fresh(NoFields), false);
    if r.sink.ok {
      PushedIsDrain(maxBuffer, maxEvent, text, chunk);
    } else {
      DrainConcat(maxEvent, text, chunk, Fresh(NoFields), false);
    }
  }

  lemma NothingPushed(maxBuffer: nat, maxEvent: nat)
    ensures PushesDrain(maxBuffer, maxEvent, [])
  {
  }

  lemma {:induction false} PushAllIsDrain(maxBuffer: nat, maxEvent: nat, chunks: seq<string>)
    ensures PushesDrain(maxBuffer, maxEvent, chunks)
    decreases |chunks|
  {
    if chunks == [] {
      NothingPushed(maxBuffer, maxEvent);
    } else {
      var n := |chunks| - 1;
      PushAllIsDrain(maxBuffer, maxEvent, chunks[..n]);
      PushOneMore(maxBuffer, maxEvent, chunks[..n], chunks[n], Concat(chunks[..n]));
      assert chunks == chunks[..n] + [chunks[n]];
    }
  }

  /** The reference, told by draining the whole text at once. */
  lemma ReferenceIsDrain(maxEvent: nat, text: string)
    ensures var q := Drain(maxEvent, text, Fresh(NoFields), true);
            var last := Closing(maxEvent, q.sink, q.buffer);
            Reference(maxEvent, text) ==
            if last.ok then Success(last.events + AsSeq(Dispatch(last.fields).1)) else Failure(EventLimit)
  {
    DrainIsReference(maxEvent, text, Fresh(NoFields));
    var s := ScanText(ScanStart, text);
    var k := Feed(maxEvent, Fresh(NoFields), s.lines);
    FeedConcat(maxEvent, Fresh(NoFields), s.lines, TailLines(s.current));
    FeedTail(maxEvent, k, s.current);
  }

  lemma FeedTail(maxEvent: nat, k: Sink, current: string)
    ensures Feed(maxEvent, k, TailLines(current)) == Closing(maxEvent, k, current)
  {
  }

  lemma BehindFresh(k: Sink)
    requires k.ok
    ensures Behind(k.events, Fresh(k.fields)) == k
  {
  }

  lemma ClosingBehind(maxEvent: nat, events: seq<Event>, k: Sink, buffer: string)
    ensures Closing(maxEvent, Behind(events, k), buffer) == Behind(events, Closing(maxEvent, k, buffer))
  {
  }

  /** Draining to the end can be done in two goes, the second starting afresh. */
  lemma DrainInTwo(maxEvent: nat, text: string, k: Sink)
    requires Drain(maxEvent, text, k, false).sink.ok
    ensures var r := Drain(maxEvent, text, k, false);
            var q := Drain(maxEvent, r.buffer, Fresh(r.sink.fields), true);
            Drain(maxEvent, text, k, true) == Drained(q.buffer, Behind(r.sink.events, q.sink))
  {
    var r := Drain(maxEvent, text, k, false);
    DrainConcat(maxEvent, text, "", k, true);
    assert text + "" == text && r.buffer + "" == r.buffer;
    BehindFresh(r.sink);
    DrainBehind(maxEvent, r.sink.events, r.buffer, Fresh(r.sink.fields), true);
  }

  /** Finishing behind a drained text yields the rest of the reference. */
  lemma FinishedIsReference(maxEvent: nat, text: string, r: Drained)
    requires r == Drain(maxEvent, text, Fresh(NoFields), false) && r.sink.ok
    ensures var last := Finished(maxEvent, Decoder(r.buffer, r.sink.fields)).1;
            Reference(maxEvent, text) ==
            if last.Success? then Success(r.sink.events + last.value) else Failure(EventLimit)
  {
    ReferenceIsDrain(maxEvent, text);
    DrainInTwo(maxEvent, text, Fresh(NoFields));
    var q := Drain(maxEvent, r.buffer, Fresh(r.sink.fields), true);
    ClosingBehind(maxEvent, r.sink.events, q.sink, q.buffer);
    var last := Closing(maxEvent, q.sink, q.buffer);
    ConcatAssoc(r.sink.events, last.events, AsSeq(Dispatch(last.fields).1));
  }

  /**
   Chunking does not matter. However the text is cut, the decoder succeeds
   exactly when no event is too large and no chunk overflows the buffer, and then
   its events are those of the reference on the whole text.
   */
  lemma DecodingIgnoresChunking(maxBuffer: nat, maxEvent: nat, chunks: seq<string>)
    ensures var r := DecodeChunks(maxBuffer, maxEvent, chunks);
            var reference := Reference(maxEvent, Concat(chunks));
            && (r.Success? <==> reference.Success? && ChunksFit(maxBuffer, chunks))
            && (r.Success? ==> r == reference)
  {
    var text := Concat(chunks);
    PushAllIsDrain(maxBuffer, maxEvent, chunks);
    if Drain(maxEvent, text, Fresh(NoFields), false).sink.ok {
      FinishedIsReference(maxEvent, text, Drain(maxEvent, text, Fresh(NoFields), false));
    } else {
      ReferenceIsDrain(maxEvent, text);
      DrainConcat(maxEvent, text, "", Fresh(NoFields), true);
      assert text + "" == text;
    }
  }

  /** Which limit it was: a chunk that does not fit with what is held, or an event. */
  lemma {:induction false} FittingFailsByEvent(maxBuffer: nat, maxEvent: nat, chunks: seq<string>)
    requires ChunksFit(maxBuffer, chunks)
    ensures PushAll(maxBuffer, maxEvent, chunks).1.Success? || PushAll(maxBuffer, maxEvent, chunks).1 == Failure(EventLimit)
    ensures DecodeChunks(maxBuffer, maxEvent, chunks).Success? || DecodeChunks(maxBuffer, maxEvent, chunks) == Failure(EventLimit)
    decreases |chunks|
  {
    if chunks != [] {
      var n := |chunks| - 1;
      FittingFailsByEvent(maxBuffer, maxEvent, chunks[..n]);
      PushAllIsDrain(maxBuffer, maxEvent, chunks[..n]);
      DrainHolds(maxEvent, Concat(chunks[..n]), Fresh(NoFields));
    }
  }

  lemma OverflowFails(maxBuffer: nat, maxEvent: nat, before: seq<string>, chunk: string)
    requires PushAll(maxBuffer, maxEvent, before).1.Success? && chunk != ""
    requires |Encode(Held(Concat(before)))| + |Encode(chunk)| > maxBuffer
    ensures PushAll(maxBuffer, maxEvent, before + [chunk]).1 == Failure(BufferLimit)
  {
    PushAllIsDrain(maxBuffer, maxEvent, before);
    DrainHolds(maxEvent, Concat(before), Fresh(NoFields));
    OneMore(maxBuffer, maxEvent, before, chunk);
  }

  // ------------------------------------------------------------ the class

  const DEFAULT_LIMIT := 1024 * 1024

  /** Options below 1 count as 1; fractions are rounded down. */
  function PositiveLimit(value: Requested): (r: nat)
    ensures value.Finite? && value.value < 1.0 ==> r == 1
    ensures value.Finite? && value.value >= 1.0 ==> r as real <= value.value < (r + 1) as real
    ensures !value.Finite? ==> r == 1_048_576
  {
    if value.Finite? then Max(1, value.value.Floor) else DEFAULT_LIMIT
  }

  lemma SuffixFits(s: string, n: nat)
    requires n <= |s|
    ensures ByteLength(s[n..]) <= ByteLength(s)
  {
    ByteLengthConcat(s[..n], s[n..]);
    assert s == s[..n] + s[n..];
  }

  class SSEDecoder {
    const maxBufferBytes: nat
    const maxEventBytes: nat
    var buffer: string
    var dataLines: seq<string>
    var eventName: Option<string>
    var eventId: Option<string>
    var retry: Option<nat>
    var eventBytes: nat

    ghost function Collected(): Fields
      reads this
    {
      Fields(dataLines, eventName, eventId, retry, eventBytes)
    }

    ghost function State(): Decoder
      reads this
    {
      Decoder(buffer, Collected())
    }

    ghost predicate Valid()
      reads this
    {
      ByteLength(buffer) <= maxBufferBytes
    }

    constructor (maxBuffer: Requested, maxEvent: Requested)
      ensures Valid() && State() == NewDecoder
      ensures maxBufferBytes == PositiveLimit(maxBuffer) && maxEventBytes == PositiveLimit(maxEvent)
    {
      maxBufferBytes := PositiveLimit(maxBuffer);
      maxEventBytes := PositiveLimit(maxEvent);
      buffer, dataLines, eventName, eventId, retry, eventBytes := "", [], None, None, None, 0;
    }

    method Push(chunk: string) returns (r: Result<seq<Event>, LimitError>)
      requires Valid()
      modifies this
      ensures Valid()
      ensures (State(), r) == Pushed(maxBufferBytes, maxEventBytes, old(State()), chunk)
    {
      if chunk == "" { return Success([]); }
      var chunkBytes, bufferBytes := ByteLength(chunk), ByteLength(buffer);
      if chunkBytes > maxBufferBytes || bufferBytes + chunkBytes > maxBufferBytes {
        return Failure(BufferLimit);
      }
      ByteLengthConcat(buffer, chunk);
      buffer := buffer + chunk;
      r := DrainBuffer(false);
    }

    method Finish() returns (r: Result<seq<Event>, LimitError>)
      requires Valid()
      modifies this
      ensures Valid()
      ensures (State(), r) == Finished(maxEventBytes, old(State()))
    {
      r := DrainBuffer(true);
      if r.Failure? { return; }
      var events := r.value;
      if |buffer| > 0 {
        var line := buffer;
        buffer := "";
        var event := Process(line);
        if event.Failure? { return Failure(event.error); }
        events := events + AsSeq(event.value);
      }
      var finalEvent := DispatchEvent();
      return Success(events + AsSeq(finalEvent));
    }

    method DrainBuffer(final: bool) returns (r: Result<seq<Event>, LimitError>)
      requires Valid()
      modifies this
      ensures Valid()
      ensures var d := Drain(maxEventBytes, old(buffer), Fresh(old(Collected())), final);
              && State() == Decoder(d.buffer, d.sink.fields)
              && r == if d.sink.ok then Success(d.sink.events) else Failure(EventLimit)
    {
      var events: seq<Event> := [];
      while |buffer| > 0
        invariant Valid()
        invariant Drain(maxEventBytes, buffer, Sink(Collected(), events, true), final)
               == Drain(maxEventBytes, old(buffer), Fresh(old(Collected())), final)
        decreases |buffer|
      {
        if Settled(buffer, final) { break; }
        var end := FirstBreak(buffer).value;
        var line, consumed := buffer[..end], AfterBreak(buffer, end);
        SuffixFits(buffer, consumed);
        buffer := buffer[consumed..];
        var event := Process(line);
        if event.Failure? { return Failure(event.error); }
        events := events + AsSeq(event.value);
      }
      // The limit check that stands here in the source cannot fail:
      assert ByteLength(buffer) <= maxBufferBytes;
      return Success(events);
    }

    method Process(line: string) returns (r: Result<Option<Event>, LimitError>)
      modifies this`dataLines, this`eventName, this`eventId, this`retry, this`eventBytes
      ensures (Collected(), r) == Processed(maxEventBytes, old(Collected()), line)
    {
      eventBytes := eventBytes + ByteLength(line) + 1;
      if eventBytes > maxEventBytes { return Failure(EventLimit); }
      if line == "" {
        var event := DispatchEvent();
        return Success(event);
      }
      if line[0] == ':' { return Success(None); }
      var field, value := FieldOf(line), ValueOf(line);
      if field == "data" {
        dataLines := dataLines + [value];
      } else if field == "event" {
        eventName := Some(value);
      } else if field == "id" && '\0' !in value {
        eventId := Some(value);
      } else if field == "retry" && IsDecimal(value) {
        retry := Some(ParseDecimal(value));
      }
      return Success(None);
    }

    method DispatchEvent() returns (event: Option<Event>)
      modifies this`dataLines, this`eventName, this`eventId, this`retry, this`eventBytes
      ensures (Collected(), event) == Dispatch(old(Collected()))
    {
      if dataLines == [] {
        eventName, eventId, retry, eventBytes := None, None, None, 0;
        return None;
      }
      event := Some(Event(DropFinalNewline(JoinLines(dataLines)), eventName, eventId, retry));
      dataLines, eventName, eventId, retry, eventBytes := [], None, None, None, 0;
    }
  }
}
