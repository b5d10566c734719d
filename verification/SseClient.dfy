/**
 The client's loop over a response body (src/ai/client.ts:520-562): chunks are
 pushed into the decoder and its events handed over until the one that ends the
 stream.
 */
module SseClient {
  import opened Prelude
  import opened Strings
  import opened Sse

  lemma {:induction false} PushFailureStays(maxBuffer: nat, maxEvent: nat, chunks: seq<string>, n: nat)
    requires n <= |chunks| && PushAll(maxBuffer, maxEvent, chunks[..n]).1.Failure?
    ensures PushAll(maxBuffer, maxEvent, chunks) == PushAll(maxBuffer, maxEvent, chunks[..n])
    decreases |chunks|
  {
    if n == |chunks| {
      assert chunks[..n] == chunks;
    } else {
      var front, last := chunks[..|chunks| - 1], chunks[|chunks| - 1];
      assert front[..n] == chunks[..n];
      PushFailureStays(maxBuffer, maxEvent, front, n);
      OneMore(maxBuffer, maxEvent, front, last);
      assert chunks == front + [last];
    }
  }

  /** The event that ends a stream. */
  predicate IsDone(e: Event) {
    Trim(e.data) == "[DONE]"
  }

  predicate SaysDone(data: string, before: string, after: string) {
    data == before + "[DONE]" + after && forall c :: c in before + after ==> IsSpace(c)
  }

  lemma DoneIsPadded(e: Event) returns (before: string, after: string)
    requires IsDone(e)
    ensures SaysDone(e.data, before, after)
  {
    var lo, hi := TrimSplits(e.data);
    before, after := e.data[..lo], e.data[hi..];
    assert e.data == before + "[DONE]" + after;
    forall c | c in before + after ensures IsSpace(c) {
      var i :| 0 <= i < |before + after| && (before + after)[i] == c;
      assert c == if i < lo then e.data[i] else e.data[hi + i - lo];
    }
  }

  /** It says so, with nothing but white space around. */
  lemma DoneIsSpelt(e: Event)
    ensures IsDone(e) <==> exists before, after :: SaysDone(e.data, before, after)
  {
    if IsDone(e) {
      var before, after := DoneIsPadded(e);
    }
    forall before, after | SaysDone(e.data, before, after) ensures IsDone(e) {
      assert !IsSpace('[') && !IsSpace(']');
      TrimOfPadded(before, "[DONE]", after);
    }
  }

  predicate HasDone(es: seq<Event>) {
    exists i :: 0 <= i < |es| && IsDone(es[i])
  }

  function UntilDone(es: seq<Event>): seq<Event> {
    if es == [] || IsDone(es[0]) then [] else [es[0]] + UntilDone(es[1..])
  }

  lemma HasDoneConcat(a: seq<Event>, b: seq<Event>)
    ensures HasDone(a + b) <==> HasDone(a) || HasDone(b)
  {
    forall i | 0 <= i < |a| && IsDone(a[i]) ensures HasDone(a + b) {
      assert (a + b)[i] == a[i];
    }
    forall i | 0 <= i < |b| && IsDone(b[i]) ensures HasDone(a + b) {
      assert (a + b)[|a| + i] == b[i];
    }
  }

  lemma {:induction false} UntilDoneConcat(a: seq<Event>, b: seq<Event>)
    ensures UntilDone(a + b) == if HasDone(a) then UntilDone(a) else a + UntilDone(b)
    decreases |a|
  {
    if a == [] {
      assert a + b == b;
    } else {
      assert (a + b)[0] == a[0] && (a + b)[1..] == a[1..] + b;
      HasDoneFirst(a);
      if !IsDone(a[0]) {
        UntilDoneConcat(a[1..], b);
        ConcatAssoc([a[0]], a[1..], UntilDone(b));
        assert [a[0]] + a[1..] == a;
      }
    }
  }

  lemma HasDoneFirst(es: seq<Event>)
    requires es != []
    ensures HasDone(es) <==> IsDone(es[0]) || HasDone(es[1..])
  {
    HasDoneConcat([es[0]], es[1..]);
    assert [es[0]] + es[1..] == es;
    assert HasDone([es[0]]) <==> IsDone([es[0]][0]);
  }

  lemma NoneIsDone(es: seq<Event>)
    requires !HasDone(es)
    ensures UntilDone(es) == es
  {
    UntilDoneConcat(es, []);
    assert es + [] == es;
  }

  /** All events of a whole text, or those before one that is too large. */
  function ReferenceEvents(maxEvent: nat, text: string): (es: seq<Event>)
    ensures Reference(maxEvent, text).Success? ==> Reference(maxEvent, text).value == es
  {
    var r := Feed(maxEvent, Fresh(NoFields), ReferenceLines(text));
    if r.ok then r.events + AsSeq(Dispatch(r.fields).1) else r.events
  }

  lemma {:induction false} DrainGrows(maxEvent: nat, buffer: string, k: Sink, final: bool)
    ensures k.events <= Drain(maxEvent, buffer, k, final).sink.events
    decreases |buffer|
  {
    if k.ok && !Settled(buffer, final) {
      var end := FirstBreak(buffer).value;
      DrainGrows(maxEvent, buffer[AfterBreak(buffer, end)..], FeedLine(maxEvent, k, buffer[..end]), final);
    }
  }

  /** What is out after a part of a text is the beginning of the reference's events. */
  lemma EventsSoFar(maxEvent: nat, a: string, b: string)
    requires Drain(maxEvent, a, Fresh(NoFields), false).sink.ok
    ensures Drain(maxEvent, a, Fresh(NoFields), false).sink.events <= ReferenceEvents(maxEvent, a + b)
  {
    var r, q := Drain(maxEvent, a, Fresh(NoFields), false), Drain(maxEvent, a + b, Fresh(NoFields), true);
    DrainConcat(maxEvent, a, b, Fresh(NoFields), true);
    DrainGrows(maxEvent, r.buffer + b, r.sink, true);
    DrainIsReference(maxEvent, a + b, Fresh(NoFields));
    var s := ScanText(ScanStart, a + b);
    FeedConcat(maxEvent, Fresh(NoFields), s.lines, TailLines(s.current));
    FeedTail(maxEvent, q.sink, s.current);
    assert q.sink.events <= Closing(maxEvent, q.sink, s.current).events;
  }

  lemma PushedSoFar(maxBuffer: nat, maxEvent: nat, chunks: seq<string>, n: nat)
    requires n <= |chunks| && PushAll(maxBuffer, maxEvent, chunks[..n]).1.Success?
    ensures PushAll(maxBuffer, maxEvent, chunks[..n]).1.value <= ReferenceEvents(maxEvent, Concat(chunks))
  {
    PushedEvents(maxBuffer, maxEvent, chunks[..n]);
    ConcatTake(chunks, n);
    EventsSoFar(maxEvent, Concat(chunks[..n]), Concat(chunks[n..]));
  }

  lemma PushedEvents(maxBuffer: nat, maxEvent: nat, chunks: seq<string>)
    requires PushAll(maxBuffer, maxEvent, chunks).1.Success?
    ensures var r := Drain(maxEvent, Concat(chunks), Fresh(NoFields), false);
            r.sink.ok && PushAll(maxBuffer, maxEvent, chunks).1.value == r.sink.events
  {
    PushAllIsDrain(maxBuffer, maxEvent, chunks);
  }

  /** Successful pushes had all succeeded before, with fewer events. */
  lemma {:induction false} PushGrows(maxBuffer: nat, maxEvent: nat, chunks: seq<string>, m: nat)
    requires m <= |chunks| && PushAll(maxBuffer, maxEvent, chunks).1.Success?
    ensures PushAll(maxBuffer, maxEvent, chunks[..m]).1.Success?
    ensures PushAll(maxBuffer, maxEvent, chunks[..m]).1.value <= PushAll(maxBuffer, maxEvent, chunks).1.value
    decreases |chunks|
  {
    if m == |chunks| {
      assert chunks[..m] == chunks;
    } else {
      var n := |chunks| - 1;
      assert chunks[..n][..m] == chunks[..m] && chunks == chunks[..n] + [chunks[n]];
      OneMore(maxBuffer, maxEvent, chunks[..n], chunks[n]);
      PushGrows(maxBuffer, maxEvent, chunks[..n], m);
    }
  }

  /** How reading a stream ends. */
  datatype End = SawDone | Closed | Limited(error: LimitError)

  /** The first `n` chunks go through and bring the event that ends the stream. */
  ghost predicate DoneWithin(maxBuffer: nat, maxEvent: nat, chunks: seq<string>, n: nat) {
    n <= |chunks| &&
    var pushed := PushAll(maxBuffer, maxEvent, chunks[..n]).1;
    pushed.Success? && HasDone(pushed.value)
  }

  ghost predicate SeesDone(maxBuffer: nat, maxEvent: nat, chunks: seq<string>) {
    || (exists n :: DoneWithin(maxBuffer, maxEvent, chunks, n))
    || (var all := DecodeChunks(maxBuffer, maxEvent, chunks); all.Success? && HasDone(all.value))
  }

  /** What a reader is handed, and how it ends. */
  ghost predicate ReadAs(maxBuffer: nat, maxEvent: nat, chunks: seq<string>, handed: seq<Event>, end: End) {
    var expected := UntilDone(ReferenceEvents(maxEvent, Concat(chunks)));
    && handed <= expected && (end.Limited? || handed == expected)
    && match end
       case SawDone => SeesDone(maxBuffer, maxEvent, chunks)
       case Closed => !SeesDone(maxBuffer, maxEvent, chunks) && DecodeChunks(maxBuffer, maxEvent, chunks).Success?
       case Limited(error) =>
         !SeesDone(maxBuffer, maxEvent, chunks) && DecodeChunks(maxBuffer, maxEvent, chunks) == Failure(error)
  }

  /** A chunk that brings the last event. */
  lemma EndsInChunk(maxBuffer: nat, maxEvent: nat, chunks: seq<string>, n: nat)
    requires DoneWithin(maxBuffer, maxEvent, chunks, n)
    ensures ReadAs(maxBuffer, maxEvent, chunks, UntilDone(PushAll(maxBuffer, maxEvent, chunks[..n]).1.value), SawDone)
  {
    var events, all := PushAll(maxBuffer, maxEvent, chunks[..n]).1.value, ReferenceEvents(maxEvent, Concat(chunks));
    PushedSoFar(maxBuffer, maxEvent, chunks, n);
    assert all == events + all[|events|..];
    UntilDoneConcat(events, all[|events|..]);
  }

  /** A chunk that is refused. */
  lemma FailsInChunk(maxBuffer: nat, maxEvent: nat, chunks: seq<string>, n: nat)
    requires n < |chunks|
    requires PushAll(maxBuffer, maxEvent, chunks[..n]).1.Success? && PushAll(maxBuffer, maxEvent, chunks[..n + 1]).1.Failure?
    requires !HasDone(PushAll(maxBuffer, maxEvent, chunks[..n]).1.value)
    ensures ReadAs(maxBuffer, maxEvent, chunks, PushAll(maxBuffer, maxEvent, chunks[..n]).1.value,
                   Limited(PushAll(maxBuffer, maxEvent, chunks[..n + 1]).1.error))
  {
    var events, all := PushAll(maxBuffer, maxEvent, chunks[..n]).1.value, ReferenceEvents(maxEvent, Concat(chunks));
    PushedSoFar(maxBuffer, maxEvent, chunks, n);
    assert all == events + all[|events|..];
    UntilDoneConcat(events, all[|events|..]);
    PushFailureStays(maxBuffer, maxEvent, chunks, n + 1);
    forall m: nat ensures !DoneWithin(maxBuffer, maxEvent, chunks, m) {
      NotDoneBefore(maxBuffer, maxEvent, chunks, n, m);
    }
  }

  lemma NotDoneBefore(maxBuffer: nat, maxEvent: nat, chunks: seq<string>, n: nat, m: nat)
    requires n <= |chunks| && PushAll(maxBuffer, maxEvent, chunks[..n]).1.Success?
    requires !HasDone(PushAll(maxBuffer, maxEvent, chunks[..n]).1.value)
    requires n == |chunks| || PushAll(maxBuffer, maxEvent, chunks[..n + 1]).1.Failure?
    ensures !DoneWithin(maxBuffer, maxEvent, chunks, m)
  {
    if m <= n {
      assert chunks[..n][..m] == chunks[..m];
      PushGrows(maxBuffer, maxEvent, chunks[..n], m);
      var early, late := PushAll(maxBuffer, maxEvent, chunks[..m]).1.value, PushAll(maxBuffer, maxEvent, chunks[..n]).1.value;
      assert late == early + late[|early|..];
      HasDoneConcat(early, late[|early|..]);
    } else if m <= |chunks| {
      assert chunks[..m][..n + 1] == chunks[..n + 1];
      PushFailureStays(maxBuffer, maxEvent, chunks[..m], n + 1);
    }
  }

  /** The first `n` chunks went through and none brought the last event. */
  ghost predicate ReadSoFar(maxBuffer: nat, maxEvent: nat, chunks: seq<string>, n: nat, d: Decoder, handed: seq<Event>) {
    n <= |chunks| && (d, Success(handed)) == PushAll(maxBuffer, maxEvent, chunks[..n]) && !HasDone(handed)
  }

  lemma NextPush(maxBuffer: nat, maxEvent: nat, before: seq<string>, chunk: string, d: Decoder, next: Decoder,
                 handed: seq<Event>, pushed: Result<seq<Event>, LimitError>)
    requires PushAll(maxBuffer, maxEvent, before) == (d, Success(handed))
    requires Pushed(maxBuffer, maxEvent, d, chunk) == (next, pushed)
    ensures PushAll(maxBuffer, maxEvent, before + [chunk]) ==
            (next, if pushed.Failure? then pushed else Success(handed + pushed.value))
  {
    OneMore(maxBuffer, maxEvent, before, chunk);
  }

  lemma AfterPlain(a: seq<Event>, b: seq<Event>)
    requires !HasDone(a)
    ensures UntilDone(a + b) == a + UntilDone(b) && (HasDone(a + b) <==> HasDone(b))
  {
    UntilDoneConcat(a, b);
    HasDoneConcat(a, b);
  }

  lemma OneChunk(maxBuffer: nat, maxEvent: nat, chunks: seq<string>, n: nat, d: Decoder, next: Decoder,
                 handed: seq<Event>, pushed: Result<seq<Event>, LimitError>)
    requires ReadSoFar(maxBuffer, maxEvent, chunks, n, d, handed) && n < |chunks|
    requires (next, pushed) == Pushed(maxBuffer, maxEvent, d, chunks[n])
    ensures pushed.Failure? ==> ReadAs(maxBuffer, maxEvent, chunks, handed, Limited(pushed.error))
    ensures pushed.Success? && HasDone(pushed.value) ==>
              ReadAs(maxBuffer, maxEvent, chunks, handed + UntilDone(pushed.value), SawDone)
    ensures pushed.Success? && !HasDone(pushed.value) ==>
              ReadSoFar(maxBuffer, maxEvent, chunks, n + 1, next, handed + UntilDone(pushed.value))
  {
    NextPush(maxBuffer, maxEvent, chunks[..n], chunks[n], d, next, handed, pushed);
    assert chunks[..n + 1] == chunks[..n] + [chunks[n]];
    if pushed.Failure? {
      FailsInChunk(maxBuffer, maxEvent, chunks, n);
    } else if HasDone(pushed.value) {
      AfterPlain(handed, pushed.value);
      EndsInChunk(maxBuffer, maxEvent, chunks, n + 1);
    } else {
      AfterPlain(handed, pushed.value);
      NoneIsDone(pushed.value);
    }
  }

  /** All chunks went through and none brought the last event. */
  lemma AtTheClose(maxBuffer: nat, maxEvent: nat, chunks: seq<string>, d: Decoder, events: seq<Event>,
                   last: Result<seq<Event>, LimitError>)
    requires ReadSoFar(maxBuffer, maxEvent, chunks, |chunks|, d, events) && last == Finished(maxEvent, d).1
    ensures if last.Failure? then ReadAs(maxBuffer, maxEvent, chunks, events, Limited(last.error))
            else ReadAs(maxBuffer, maxEvent, chunks, events + UntilDone(last.value),
                        if HasDone(last.value) then SawDone else Closed)
  {
    var all := ReferenceEvents(maxEvent, Concat(chunks));
    assert chunks[..|chunks|] == chunks;
    DecodingIgnoresChunking(maxBuffer, maxEvent, chunks);
    forall m: nat ensures !DoneWithin(maxBuffer, maxEvent, chunks, m) {
      NotDoneBefore(maxBuffer, maxEvent, chunks, |chunks|, m);
    }
    if last.Success? {
      UntilDoneConcat(events, last.value);
      HasDoneConcat(events, last.value);
    } else {
      PushedSoFar(maxBuffer, maxEvent, chunks, |chunks|);
      assert all == events + all[|events|..];
      UntilDoneConcat(events, all[|events|..]);
    }
  }

  /** `decodeEvents`: hands the events over up to the one that ends the stream. */
  method HandOver(events: seq<Event>) returns (handed: seq<Event>, done: bool)
    ensures handed == UntilDone(events) && (done <==> HasDone(events))
  {
    for i := 0 to |events|
      invariant !HasDone(events[..i])
    {
      assert events == events[..i] + events[i..] && events[..i + 1] == events[..i] + [events[i]];
      UntilDoneConcat(events[..i], events[i..]);
      if IsDone(events[i]) { return events[..i], true; }
      HasDoneConcat(events[..i], [events[i]]);
    }
    assert events[..|events|] == events;
    NoneIsDone(events);
    return events, false;
  }

  /** The client's loop over a response body (src/ai/client.ts): push every chunk and
      hand its events over until the one that ends the stream; at the close, finish. */
  method DecodeStream(maxBuffer: Requested, maxEvent: Requested, chunks: seq<string>) returns (handed: seq<Event>, end: End)
    ensures ReadAs(PositiveLimit(maxBuffer), PositiveLimit(maxEvent), chunks, handed, end)
  {
    var decoder := new SSEDecoder(maxBuffer, maxEvent);
    ghost var b, e := decoder.maxBufferBytes, decoder.maxEventBytes;
    handed := [];
    for i := 0 to |chunks|
      invariant decoder.Valid() && ReadSoFar(b, e, chunks, i, decoder.State(), handed)
    {
      ghost var before := decoder.State();
      var pushed := decoder.Push(chunks[i]);
      OneChunk(b, e, chunks, i, before, decoder.State(), handed, pushed);
      if pushed.Failure? { return handed, Limited(pushed.error); }
      var more, done := HandOver(pushed.value);
      handed := handed + more;
      if done { return handed, SawDone; }
    }
    ghost var before := decoder.State();
    var last := decoder.Finish();
    AtTheClose(b, e, chunks, before, handed, last);
    if last.Failure? { return handed, Limited(last.error); }
    var more, done := HandOver(last.value);
    return handed + more, if done then SawDone else Closed;
  }

  /** A stream that decodes is handed over whole, up to the event that ends it. */
  lemma ReadsReference(maxBuffer: nat, maxEvent: nat, chunks: seq<string>, handed: seq<Event>, end: End)
    requires ReadAs(maxBuffer, maxEvent, chunks, handed, end)
    requires Reference(maxEvent, Concat(chunks)).Success? && ChunksFit(maxBuffer, chunks)
    ensures var events := Reference(maxEvent, Concat(chunks)).value;
            handed == UntilDone(events) && end == if HasDone(events) then SawDone else Closed
  {
    DecodingIgnoresChunking(maxBuffer, maxEvent, chunks);
    var events := Reference(maxEvent, Concat(chunks)).value;
    if end.SawDone? {
      SeenIsThere(maxBuffer, maxEvent, chunks);
    }
  }

  lemma SeenIsThere(maxBuffer: nat, maxEvent: nat, chunks: seq<string>)
    requires SeesDone(maxBuffer, maxEvent, chunks)
    ensures HasDone(ReferenceEvents(maxEvent, Concat(chunks)))
  {
    DecodingIgnoresChunking(maxBuffer, maxEvent, chunks);
    var all := ReferenceEvents(maxEvent, Concat(chunks));
    forall n: nat | DoneWithin(maxBuffer, maxEvent, chunks, n) ensures HasDone(all) {
      var events := PushAll(maxBuffer, maxEvent, chunks[..n]).1.value;
      PushedSoFar(maxBuffer, maxEvent, chunks, n);
      assert all == events + all[|events|..];
      HasDoneConcat(events, all[|events|..]);
    }
  }
}
