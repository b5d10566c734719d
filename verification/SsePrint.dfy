/**
 Writing events down as server-sent-event text, in any of the ways the format
 allows, and reading them back with the decoder of module `Sse`: fields in any
 order, with or without the space behind the colon, comments and unknown fields
 between them, lines ended by LF, CR or CRLF, and the last record left open.
 */
module SsePrint {
  import opened Prelude
  import opened Utf8
  import opened Sse

  // ------------------------------------------------------------ what is written

  datatype Content =
    | Data(value: string)
    | Name(value: string)
    | Id(value: string)
    | Retry(zeros: nat, n: nat)
    | Ignored(field: string, value: string)

  /** `field: value`, `field:value`, or the field alone. */
  datatype Style = Spaced | Tight | Bare

  datatype Item = Field(content: Content, style: Style) | Comment(text: string)

  function Zeros(n: nat): string {
    seq(n, _ => '0')
  }

  function Decimal(n: nat): (s: string)
    ensures IsDecimal(s)
  {
    var digit := [('0' as int + n % 10) as char];
    if n < 10 then digit else Decimal(n / 10) + digit
  }

  function FieldText(c: Content): string {
    match c
    case Data(_) => "data"
    case Name(_) => "event"
    case Id(_) => "id"
    case Retry(_, _) => "retry"
    case Ignored(field, _) => field
  }

  function ValueText(c: Content): string {
    match c
    case Retry(zeros, n) => Zeros(zeros) + Decimal(n)
    case _ => c.value
  }

  function Line(item: Item): string {
    match item
    case Comment(text) => ":" + text
    case Field(c, Spaced) => FieldText(c) + ": " + ValueText(c)
    case Field(c, Tight) => FieldText(c) + ":" + ValueText(c)
    case Field(c, Bare) => FieldText(c)
  }

  predicate HasNonDigit(s: string) {
    exists i :: 0 <= i < |s| && (s[i] < '0' || s[i] > '9')
  }

  /** Unknown fields, ids with a NUL, and waiting times that are no numbers. */
  predicate IsIgnored(field: string, value: string) {
    && field != "" && ':' !in field && field != "data" && field != "event"
    && (field == "id" ==> '\0' in value)
    && (field == "retry" ==> value == "" || HasNonDigit(value))
  }

  predicate ValidItem(item: Item) {
    match item
    case Comment(text) => NoBreak(text)
    case Field(c, style) =>
      && NoBreak(FieldText(c)) && NoBreak(ValueText(c))
      && (style.Tight? ==> ValueText(c) == "" || ValueText(c)[0] != ' ')
      && (style.Bare? ==> ValueText(c) == "")
      && (c.Id? ==> '\0' !in c.value)
      && (c.Ignored? ==> IsIgnored(c.field, c.value))
  }

  // ------------------------------------------------------------ what it says

  function DataOf(items: seq<Item>): seq<string> {
    if items == [] then []
    else
      var before, item := DataOf(items[..|items| - 1]), items[|items| - 1];
      if item.Field? && item.content.Data? then before + [item.content.value] else before
  }

  /** The last one given counts. */
  function NameOf(items: seq<Item>): Option<string> {
    if items == [] then None
    else
      var item := items[|items| - 1];
      if item.Field? && item.content.Name? then Some(item.content.value) else NameOf(items[..|items| - 1])
  }

  function IdOf(items: seq<Item>): Option<string> {
    if items == [] then None
    else
      var item := items[|items| - 1];
      if item.Field? && item.content.Id? then Some(item.content.value) else IdOf(items[..|items| - 1])
  }

  function RetryOf(items: seq<Item>): Option<nat> {
    if items == [] then None
    else
      var item := items[|items| - 1];
      if item.Field? && item.content.Retry? then Some(item.content.n) else RetryOf(items[..|items| - 1])
  }

  /** The lines of a text, cut at each LF. */
  function SplitLines(s: string): (lines: seq<string>)
    ensures lines != []
  {
    match IndexOf(s, '\n')
    case None => [s]
    case Some(i) => [s[..i]] + SplitLines(s[i + 1..])
  }

  /** The lines make up the text; one LF at the very end is not part of it. */
  predicate MakeUp(lines: seq<string>, text: string) {
    || (SplitLines(text) == lines && (text == "" || text[|text| - 1] != '\n'))
    || SplitLines(text + "\n") == lines
  }

  /** The items of one record and the event they stand for; none without data. */
  datatype Record = Record(items: seq<Item>, event: Option<Event>)

  predicate ValidRecord(r: Record) {
    && (forall item :: item in r.items ==> ValidItem(item))
    && match r.event
       case None => DataOf(r.items) == []
       case Some(e) =>
         && MakeUp(DataOf(r.items), e.data) && NameOf(r.items) == e.name
         && IdOf(r.items) == e.id && RetryOf(r.items) == e.retry
  }

  function EventsOf(rs: seq<Record>): seq<Event> {
    if rs == [] then []
    else if rs[0].event.Some? then [rs[0].event.value] + EventsOf(rs[1..])
    else EventsOf(rs[1..])
  }

  // ------------------------------------------------------------ the text

  function ItemLines(items: seq<Item>): seq<string> {
    seq(|items|, i requires 0 <= i < |items| => Line(items[i]))
  }

  function AllLines(rs: seq<Record>): seq<string> {
    if rs == [] then [] else ItemLines(rs[0].items) + [""] + AllLines(rs[1..])
  }

  predicate IsEnding(ending: string) {
    ending == "\n" || ending == "\r" || ending == "\r\n"
  }

  function PrintLines(lines: seq<string>, ending: string): string {
    if lines == [] then "" else lines[0] + ending + PrintLines(lines[1..], ending)
  }

  /** Every line is ended, or every one but the last. */
  predicate Writes(text: string, lines: seq<string>, ending: string) {
    || text == PrintLines(lines, ending)
    || (lines != [] && lines[|lines| - 1] != "" &&
        text == PrintLines(lines[..|lines| - 1], ending) + lines[|lines| - 1])
  }

  /** The bytes of the lines, and one for the end of each. */
  function Size(lines: seq<string>): nat {
    if lines == [] then 0 else Size(lines[..|lines| - 1]) + |Encode(lines[|lines| - 1])| + 1
  }

  predicate Fits(maxEvent: nat, r: Record) {
    Size(ItemLines(r.items)) + 1 <= maxEvent
  }

  // ------------------------------------------------------------ numbers and lines

  lemma {:induction false} ParseDecimalPrinted(zeros: nat, n: nat)
    ensures IsDecimal(Zeros(zeros) + Decimal(n)) && ParseDecimal(Zeros(zeros) + Decimal(n)) == n
    decreases n
  {
    var s := Zeros(zeros) + Decimal(n);
    if n < 10 {
      assert s[..|s| - 1] == Zeros(zeros);
      ParseZeros(zeros);
    } else {
      ParseDecimalPrinted(zeros, n / 10);
      assert s[..|s| - 1] == Zeros(zeros) + Decimal(n / 10);
    }
  }

  lemma {:induction false} ParseZeros(n: nat)
    ensures ParseDecimal(Zeros(n)) == 0
  {
    if n > 0 {
      assert Zeros(n)[..n - 1] == Zeros(n - 1);
      ParseZeros(n - 1);
    }
  }

  lemma {:induction false} SplitThenJoin(s: string)
    ensures JoinLines(SplitLines(s)) == s
    decreases |s|
  {
    match IndexOf(s, '\n') {
      case None =>
      case Some(i) =>
        SplitThenJoin(s[i + 1..]);
        assert s == s[..i] + "\n" + s[i + 1..];
    }
  }

  lemma DataComesBack(lines: seq<string>, text: string)
    requires MakeUp(lines, text)
    ensures DropFinalNewline(JoinLines(lines)) == text
  {
    SplitThenJoin(text);
    SplitThenJoin(text + "\n");
  }

  /** The reference reads ended lines back. */
  lemma {:induction false} ScanLines(s: Scan, lines: seq<string>, ending: string)
    requires IsEnding(ending) && forall l :: l in lines ==> NoBreak(l)
    requires s.current == "" && (s.afterCR ==> ending == "\r")
    ensures ScanText(s, PrintLines(lines, ending)) ==
            Scan(s.lines + lines, "", if lines == [] then s.afterCR else ending == "\r")
    decreases |lines|
  {
    if lines == [] {
      assert s.lines + [] == s.lines;
    } else {
      var rest := PrintLines(lines[1..], ending);
      var next := Scan(s.lines + [lines[0]], "", ending == "\r");
      ScanLine(s, lines[0], ending);
      ScanConcat(s, lines[0] + ending, rest);
      ScanLines(next, lines[1..], ending);
      ConcatAssoc(s.lines, [lines[0]], lines[1..]);
      assert [lines[0]] + lines[1..] == lines;
    }
  }

  lemma ScanLine(s: Scan, line: string, ending: string)
    requires IsEnding(ending) && NoBreak(line) && s.current == "" && (s.afterCR ==> ending == "\r")
    ensures ScanText(s, line + ending) == Scan(s.lines + [line], "", ending == "\r")
  {
    ScanConcat(s, line, ending);
    ScanPlain(s, line);
    var t := ScanText(s, line);
    assert "" + line == line;
    assert ending[1..] == if ending == "\r\n" then "\n" else "";
    if ending == "\r\n" {
      assert ScanText(ScanChar(t, '\r'), "\n") == ScanChar(ScanChar(t, '\r'), '\n') by {
        assert "\n"[1..] == "";
      }
    }
  }

  lemma ClosedLinesReadBack(lines: seq<string>, ending: string)
    requires IsEnding(ending) && forall l :: l in lines ==> NoBreak(l)
    ensures ReferenceLines(PrintLines(lines, ending)) == lines
  {
    ScanLines(ScanStart, lines, ending);
    assert [] + lines + [] == lines;
  }

  /** The last line may lack its end. */
  lemma OpenLineReadsBack(front: seq<string>, last: string, ending: string)
    requires IsEnding(ending) && NoBreak(last) && last != "" && forall l :: l in front ==> NoBreak(l)
    ensures ReferenceLines(PrintLines(front, ending) + last) == front + [last]
  {
    ScanLines(ScanStart, front, ending);
    ScanConcat(ScanStart, PrintLines(front, ending), last);
    ScanPlain(ScanText(ScanStart, PrintLines(front, ending)), last);
    assert [] + front == front && "" + last == last;
  }

  lemma LinesReadBack(text: string, lines: seq<string>, ending: string)
    requires IsEnding(ending) && Writes(text, lines, ending) && forall l :: l in lines ==> NoBreak(l)
    ensures ReferenceLines(text) == lines
  {
    if text == PrintLines(lines, ending) {
      ClosedLinesReadBack(lines, ending);
    } else {
      var n := |lines| - 1;
      OpenLineReadsBack(lines[..n], lines[n], ending);
      assert lines[..n] + [lines[n]] == lines;
    }
  }

  // ------------------------------------------------------------ one item

  lemma SpacedReadsBack(field: string, value: string)
    requires ':' !in field
    ensures FieldOf(field + ": " + value) == field && ValueOf(field + ": " + value) == value
  {
    var line := field + ": " + value;
    assert line[|field|] == ':' && line[..|field|] == field;
    assert IndexOf(line, ':').value == |field|;
    assert line[|field| + 1..] == " " + value && (" " + value)[1..] == value;
  }

  lemma TightReadsBack(field: string, value: string)
    requires ':' !in field && (value == "" || value[0] != ' ')
    ensures FieldOf(field + ":" + value) == field && ValueOf(field + ":" + value) == value
  {
    var line := field + ":" + value;
    assert line[|field|] == ':' && line[..|field|] == field;
    assert IndexOf(line, ':').value == |field|;
    assert line[|field| + 1..] == value;
  }

  lemma FieldReadsBack(c: Content, style: Style)
    requires ValidItem(Field(c, style))
    ensures var line := Line(Field(c, style));
            line != "" && line[0] != ':' && FieldOf(line) == FieldText(c) && ValueOf(line) == ValueText(c)
  {
    var field, value := FieldText(c), ValueText(c);
    assert field != "" && ':' !in field;
    match style {
      case Spaced => SpacedReadsBack(field, value);
      case Tight => TightReadsBack(field, value);
      case Bare =>
    }
    assert Line(Field(c, style))[0] == field[0];
  }

  /** What an item adds to what was read before it. */
  function With(f: Fields, item: Item): Fields {
    match item
    case Comment(_) => f
    case Field(Data(value), _) => f.(dataLines := f.dataLines + [value])
    case Field(Name(value), _) => f.(name := Some(value))
    case Field(Id(value), _) => f.(id := Some(value))
    case Field(Retry(_, n), _) => f.(retry := Some(n))
    case Field(Ignored(_, _), _) => f
  }

  lemma ItemIsRead(f: Fields, item: Item)
    requires ValidItem(item)
    ensures ProcessLine(f, Line(item)) == (With(f, item), None)
  {
    match item {
      case Comment(text) =>
      case Field(c, style) =>
        FieldReadsBack(c, style);
        ContentIsRead(f, c, style);
    }
  }

  lemma ContentIsRead(f: Fields, c: Content, style: Style)
    requires ValidItem(Field(c, style))
    ensures var field, value := FieldText(c), ValueText(c);
            With(f, Field(c, style)) ==
            if field == "data" then f.(dataLines := f.dataLines + [value])
            else if field == "event" then f.(name := Some(value))
            else if field == "id" && '\0' !in value then f.(id := Some(value))
            else if field == "retry" && IsDecimal(value) then f.(retry := Some(ParseDecimal(value)))
            else f
  {
    if c.Retry? {
      ParseDecimalPrinted(c.zeros, c.n);
    }
    if c.Ignored? && c.field == "retry" {
      NotDecimal(c.value);
    }
  }

  lemma NotDecimal(s: string)
    requires s == "" || HasNonDigit(s)
    ensures !IsDecimal(s)
  {
    if HasNonDigit(s) {
      var i :| 0 <= i < |s| && (s[i] < '0' || s[i] > '9');
      assert s[i] in s;
    }
  }

  lemma ItemHasNoBreak(item: Item)
    requires ValidItem(item)
    ensures NoBreak(Line(item))
  {
  }

  // ------------------------------------------------------------ records

  /** The sink behind a line that ends no event. */
  lemma FeedQuietLine(maxEvent: nat, k: Sink, line: string, read: Fields)
    requires k.ok
    requires ProcessLine(k.fields.(bytes := k.fields.bytes + ByteLength(line) + 1), line) == (read, None)
    ensures var r := FeedLine(maxEvent, k, line);
            if k.fields.bytes + ByteLength(line) + 1 <= maxEvent then r == k.(fields := read)
            else !r.ok
  {
    assert k.events + [] == k.events;
  }

  function FieldsOf(items: seq<Item>): Fields {
    Fields(DataOf(items), NameOf(items), IdOf(items), RetryOf(items), Size(ItemLines(items)))
  }

  lemma FieldsOfSnoc(items: seq<Item>, item: Item)
    ensures FieldsOf(items + [item]) == With(FieldsOf(items), item).(bytes := Size(ItemLines(items)) + ByteLength(Line(item)) + 1)
    ensures ItemLines(items + [item]) == ItemLines(items) + [Line(item)]
  {
    assert (items + [item])[..|items|] == items;
    assert ItemLines(items + [item])[..|items|] == ItemLines(items);
  }

  lemma {:induction false} FeedItems(maxEvent: nat, events: seq<Event>, items: seq<Item>)
    requires forall item :: item in items ==> ValidItem(item)
    ensures var r := Feed(maxEvent, Sink(NoFields, events, true), ItemLines(items));
            if Size(ItemLines(items)) <= maxEvent then r == Sink(FieldsOf(items), events, true)
            else !r.ok
    decreases |items|
  {
    if items != [] {
      var front, item := items[..|items| - 1], items[|items| - 1];
      assert items == front + [item];
      FieldsOfSnoc(front, item);
      FeedItems(maxEvent, events, front);
      FeedSnoc(maxEvent, Sink(NoFields, events, true), ItemLines(front), Line(item));
      FeedOneItem(maxEvent, Feed(maxEvent, Sink(NoFields, events, true), ItemLines(front)), item);
    }
  }

  lemma FeedOneItem(maxEvent: nat, k: Sink, item: Item)
    requires ValidItem(item)
    ensures var r, bytes := FeedLine(maxEvent, k, Line(item)), k.fields.bytes + ByteLength(Line(item)) + 1;
            if !k.ok then r == k
            else if bytes <= maxEvent then r == k.(fields := With(k.fields, item).(bytes := bytes))
            else !r.ok
  {
    if k.ok {
      var f := k.fields.(bytes := k.fields.bytes + ByteLength(Line(item)) + 1);
      ItemIsRead(f, item);
      FeedQuietLine(maxEvent, k, Line(item), With(f, item));
    }
  }

  lemma FeedSnoc(maxEvent: nat, k: Sink, lines: seq<string>, line: string)
    ensures Feed(maxEvent, k, lines + [line]) == FeedLine(maxEvent, Feed(maxEvent, k, lines), line)
  {
    FeedConcat(maxEvent, k, lines, [line]);
    assert [line][1..] == [];
  }

  /** What the fields of a record are dispatched as. */
  lemma RecordIsDispatched(r: Record, f: Fields)
    requires ValidRecord(r)
    requires f.dataLines == DataOf(r.items) && f.name == NameOf(r.items) && f.id == IdOf(r.items) && f.retry == RetryOf(r.items)
    ensures Dispatch(f) == (NoFields, r.event)
  {
    match r.event {
      case None =>
      case Some(e) => DataComesBack(f.dataLines, e.data);
    }
  }

  /** A record and its blank line put its event out and leave nothing behind. */
  lemma FeedRecord(maxEvent: nat, events: seq<Event>, r: Record)
    requires ValidRecord(r)
    ensures var k := Feed(maxEvent, Sink(NoFields, events, true), ItemLines(r.items) + [""]);
            if Fits(maxEvent, r) then k == Sink(NoFields, events + EventsOf([r]), true) else !k.ok
  {
    var k := Feed(maxEvent, Sink(NoFields, events, true), ItemLines(r.items));
    FeedItems(maxEvent, events, r.items);
    FeedSnoc(maxEvent, Sink(NoFields, events, true), ItemLines(r.items), "");
    if Size(ItemLines(r.items)) <= maxEvent {
      RecordIsDispatched(r, k.fields.(bytes := k.fields.bytes + 1));
      OneEvent(r);
    }
  }

  lemma OneEvent(r: Record)
    ensures EventsOf([r]) == AsSeq(r.event)
  {
    assert [r][1..] == [];
  }

  /** What is read behind the first record. */
  lemma FeedFirstRecord(maxEvent: nat, events: seq<Event>, r: Record, rest: seq<string>)
    requires ValidRecord(r)
    ensures var k := Feed(maxEvent, Sink(NoFields, events, true), ItemLines(r.items) + [""] + rest);
            if Fits(maxEvent, r) then k == Feed(maxEvent, Sink(NoFields, events + AsSeq(r.event), true), rest)
            else !k.ok
  {
    var k := Sink(NoFields, events, true);
    FeedRecord(maxEvent, events, r);
    FeedConcat(maxEvent, k, ItemLines(r.items) + [""], rest);
    if Fits(maxEvent, r) {
      OneEvent(r);
    } else {
      FeedStopped(maxEvent, Feed(maxEvent, k, ItemLines(r.items) + [""]), rest);
    }
  }

  ghost predicate AllFit(maxEvent: nat, rs: seq<Record>) {
    forall r :: r in rs ==> Fits(maxEvent, r)
  }

  lemma AllFitStep(maxEvent: nat, rs: seq<Record>)
    requires rs != []
    ensures AllFit(maxEvent, rs) <==> Fits(maxEvent, rs[0]) && AllFit(maxEvent, rs[1..])
  {
    assert rs == [rs[0]] + rs[1..];
  }

  /** The records are read whole if they fit, and are an error if they do not. */
  ghost predicate FedWhole(maxEvent: nat, events: seq<Event>, rs: seq<Record>) {
    var k := Feed(maxEvent, Sink(NoFields, events, true), AllLines(rs));
    if AllFit(maxEvent, rs) then k == Sink(NoFields, events + EventsOf(rs), true) else !k.ok
  }

  lemma FedOneMore(maxEvent: nat, events: seq<Event>, rs: seq<Record>)
    requires rs != [] && ValidRecord(rs[0])
    requires Fits(maxEvent, rs[0]) ==> FedWhole(maxEvent, events + AsSeq(rs[0].event), rs[1..])
    ensures FedWhole(maxEvent, events, rs)
  {
    FeedFirstRecord(maxEvent, events, rs[0], AllLines(rs[1..]));
    AllFitStep(maxEvent, rs);
    ConcatAssoc(events, AsSeq(rs[0].event), EventsOf(rs[1..]));
  }

  lemma {:induction false} FeedRecords(maxEvent: nat, events: seq<Event>, rs: seq<Record>)
    requires forall r :: r in rs ==> ValidRecord(r)
    ensures FedWhole(maxEvent, events, rs)
    decreases |rs|
  {
    if rs == [] {
      assert events + [] == events;
    } else {
      FeedRecords(maxEvent, events + AsSeq(rs[0].event), rs[1..]);
      FedOneMore(maxEvent, events, rs);
    }
  }

  lemma {:induction false} NoLineBreaks(rs: seq<Record>)
    requires forall r :: r in rs ==> ValidRecord(r)
    ensures forall l :: l in AllLines(rs) ==> NoBreak(l)
  {
    if rs != [] {
      assert ValidRecord(rs[0]);
      ItemsHaveNoBreaks(rs[0].items);
      NoLineBreaks(rs[1..]);
    }
  }

  lemma ItemsHaveNoBreaks(items: seq<Item>)
    requires forall item :: item in items ==> ValidItem(item)
    ensures forall l :: l in ItemLines(items) ==> NoBreak(l)
  {
    forall i | 0 <= i < |items| ensures NoBreak(ItemLines(items)[i]) {
      assert items[i] in items;
      ItemHasNoBreak(items[i]);
    }
  }

  /** The reference reads the records, the open one included. */
  lemma ReferenceReadsRecords(maxEvent: nat, rs: seq<Record>, last: Record, text: string, ending: string)
    requires (forall r :: r in rs ==> ValidRecord(r)) && ValidRecord(last)
    requires IsEnding(ending) && Writes(text, AllLines(rs) + ItemLines(last.items), ending)
    ensures Reference(maxEvent, text) ==
            if AllFit(maxEvent, rs) && Size(ItemLines(last.items)) <= maxEvent
            then Success(EventsOf(rs) + EventsOf([last])) else Failure(EventLimit)
  {
    NoLineBreaks(rs);
    ItemsHaveNoBreaks(last.items);
    LinesReadBack(text, AllLines(rs) + ItemLines(last.items), ending);
    FeedConcat(maxEvent, Fresh(NoFields), AllLines(rs), ItemLines(last.items));
    FeedRecords(maxEvent, [], rs);
    var k := Feed(maxEvent, Fresh(NoFields), AllLines(rs));
    if AllFit(maxEvent, rs) {
      assert [] + EventsOf(rs) == EventsOf(rs);
      FeedItems(maxEvent, EventsOf(rs), last.items);
      RecordIsDispatched(last, FieldsOf(last.items));
      OneEvent(last);
    } else {
      FeedStopped(maxEvent, k, ItemLines(last.items));
    }
  }

  /**
   Written events come back unchanged however they are written and however the text
   is cut into chunks within the buffer; and a record over the size limit, counting
   one byte for the end of each line, is an error.
   */
  lemma PrintedEventsComeBack(maxBuffer: nat, maxEvent: nat, rs: seq<Record>, last: Record, ending: string, chunks: seq<string>)
    requires (forall r :: r in rs ==> ValidRecord(r)) && ValidRecord(last) && IsEnding(ending)
    requires Writes(Concat(chunks), AllLines(rs) + ItemLines(last.items), ending) && ChunksFit(maxBuffer, chunks)
    ensures var decoded := DecodeChunks(maxBuffer, maxEvent, chunks);
            if (forall r :: r in rs ==> Fits(maxEvent, r)) && Size(ItemLines(last.items)) <= maxEvent
            then decoded == Success(EventsOf(rs) + EventsOf([last]))
            else decoded == Failure(EventLimit)
  {
    FittingFailsByEvent(maxBuffer, maxEvent, chunks);
    DecodingIgnoresChunking(maxBuffer, maxEvent, chunks);
    ReferenceReadsRecords(maxEvent, rs, last, Concat(chunks), ending);
  }
}
