/** The record builder of the message processor (`DataProcessor.process_messages`): one row per
    message, built from the cleaned text, and then the day-of-week and hour columns added to the
    whole table. */
module Records {
  import opened Options
  import opened Timestamps
  import Text
  import Seqs
  import TextCleaner
  import Keywords
  import Categorizer
  import Sentiment

  /** A key of a message dictionary that `get` with a default reads: missing, present with
      the value `None`, or present with a string. */
  datatype Field = Absent | Null | Value(s: string)

  /** A message dictionary as the processor reads it. The identifier, author and type are
      read by `get` without a default, which gives `None` both for a missing key and for a
      `None` value; the text and the timestamp are read with a default, which tells the two
      apart. */
  datatype InputMessage = InputMessage(
    messageId: Option<string>,
    author: Option<string>,
    text: Field,
    timestamp: Field,
    msgType: Option<string>)

  /** The row appended for one message, before the table-wide columns exist. */
  datatype Row = Row(
    messageId: Option<string>,     // "ID сообщения"
    author: Option<string>,        // "Автор"
    text: string,                  // "Текст сообщения", the cleaned text
    originalText: Option<string>,  // "Оригинальный текст"
    time: Option<string>,          // "Время"
    msgType: Option<string>,       // "Тип сообщения"
    category: string,              // "Категория"
    keywords: string,              // "Ключевые слова"
    sentiment: string,             // "Тональность"
    length: nat,                   // "Длина сообщения"
    date: string,                  // "Дата"
    timeOfDay: string)             // "Время суток"

  /** A row of the finished table: the row with "День недели" and "Час" added. */
  datatype Record = Record(row: Row, weekday: string, hour: int)

  /** What `process_messages` produces: the table, or the exception that ends it. */
  datatype Outcome =
    | Processed(records: seq<Record>)
    /** `datetime.fromisoformat` raised for the timestamp of message `index`: a `ValueError`
        for a text it does not accept, a `TypeError` for `None`. */
    | BadTimestamp(index: nat)
    /** `pd.to_datetime` could not convert the date column. */
    | DateOutOfBounds

  /** The readings of `datetime.now()` during one call of `process_messages`, in the order of
      the calls, to the second. */
  type Clock = nat -> Instant

  /** `message.get("text", "")`: `None` when the key holds `None`. */
  function OriginalText(m: InputMessage): (r: Option<string>)
    ensures r.None? <==> m.text.Null?
  {
    match m.text
    case Absent => Some("")
    case Null => None
    case Value(s) => Some(s)
  }

  /** `clean_text` of the text; `None`, like "", is falsy and cleans to "". */
  function CleanedText(m: InputMessage): string
  {
    match OriginalText(m)
    case None => TextCleaner.CleanText("")
    case Some(s) => TextCleaner.CleanText(s)
  }

  /** `message.get("timestamp")`. */
  function TimeOf(m: InputMessage): (r: Option<string>)
    ensures r.Some? <==> m.timestamp.Value?
  {
    if m.timestamp.Value? then Some(m.timestamp.s) else None
  }

  /** `datetime.fromisoformat(message.get("timestamp", datetime.now().isoformat()))`, with
      `call` the number of the `datetime.now()` call it makes: the default is computed whether
      or not the key is present. A missing key gives the reading itself; `None` raises. */
  function Dated(clock: Clock, call: nat, m: InputMessage): (r: Option<DateTime>)
    ensures r.Some? ==> Valid(r.value)
  {
    match m.timestamp
    case Absent => Some(clock(call))
    case Null => None
    case Value(s) => ParseIso(s)
  }

  /** The timestamp of `m` makes `fromisoformat` raise. */
  predicate Rejected(m: InputMessage)
  {
    m.timestamp.Null? || (m.timestamp.Value? && ParseIso(m.timestamp.s).None?)
  }

  /** The row dictionary built for a message whose "Дата" comes from `d` and whose
      "Время суток" comes from `c`. */
  function MakeRow(client: Sentiment.Client, d: DateTime, c: DateTime, m: InputMessage): Row
    requires Valid(d) && Valid(c)
  {
    var cleaned := CleanedText(m);
    Row(m.messageId, m.author, cleaned, OriginalText(m), TimeOf(m), m.msgType,
        Categorizer.Categorize(cleaned),
        Text.Join(Keywords.ExtractKeywords(cleaned), ", "),
        Sentiment.AnalyzeSentiment(client, cleaned),
        |cleaned|, DateText(d.date), ClockText(c))
  }

  /** The body of the loop of `process_messages` for message number `k`: its row, or `None`
      where `datetime.fromisoformat` raises. The date is read at the clock's call `2k` and
      the time of day at call `2k + 1`. */
  function RowOf(client: Sentiment.Client, clock: Clock, k: nat, m: InputMessage): Option<Row>
  {
    if Rejected(m) then None else Some(MakeRow(client, DateMoment(clock, k, m), TimeMoment(clock, k, m), m))
  }

  /** The date-time that the "Дата" of message number `k` is written from. */
  function DateMoment(clock: Clock, k: nat, m: InputMessage): (t: DateTime)
    requires !Rejected(m)
    ensures Valid(t)
  {
    Dated(clock, 2 * k, m).value
  }

  /** The date-time that the "Время суток" of message number `k` is written from. */
  function TimeMoment(clock: Clock, k: nat, m: InputMessage): (t: DateTime)
    requires !Rejected(m)
    ensures Valid(t)
  {
    Dated(clock, 2 * k + 1, m).value
  }

  /** The rows of a batch with no rejected timestamp, each built on its own. */
  function Rows(client: Sentiment.Client, clock: Clock, ms: seq<InputMessage>): (rows: seq<Row>)
    requires forall j :: 0 <= j < |ms| ==> !Rejected(ms[j])
    ensures |rows| == |ms|
  {
    seq(|ms|, j requires 0 <= j < |ms| => MakeRow(client, DateMoment(clock, j, ms[j]), TimeMoment(clock, j, ms[j]), ms[j]))
  }

  /** The messages paired with their positions. */
  function Numbered(ms: seq<InputMessage>): (r: seq<(nat, InputMessage)>)
    ensures |r| == |ms| && forall k :: 0 <= k < |ms| ==> r[k] == (k, ms[k])
  {
    seq(|ms|, k requires 0 <= k < |ms| => (k as nat, ms[k]))
  }

  /** The loop body as a function value, for a given client and clock. */
  function RowBuilder(client: Sentiment.Client, clock: Clock): ((nat, InputMessage)) -> Option<Row>
  {
    (p: (nat, InputMessage)) => RowOf(client, clock, p.0, p.1)
  }

  /** The two table-wide columns of one row, read back from its date and clock texts; `None`
      when pandas cannot convert them. */
  function Annotate(r: Row): Option<Record>
  {
    match ParseDate(r.date)
    case None => None
    case Some(d) =>
      if !InTimestampRange(d) then None
      else match ParseClock(r.timeOfDay)
        case None => None
        case Some(hm) => Some(Record(r, DayName(d), hm.0))
  }

  /** The table the second step leaves: every row annotated, or the conversion error. */
  function AddColumns(rows: seq<Row>): Outcome
  {
    if Seqs.FirstNone(Annotate, rows, 0) < |rows| then DateOutOfBounds
    else Processed(Seqs.Values(Annotate, rows, |rows|))
  }

  /** The two steps of `process_messages` for any row builder: the loop stops at the first
      item that has no row, and otherwise the column step runs on the rows. */
  function Batch<A>(build: A -> Option<Row>, items: seq<A>): Outcome
  {
    var k := Seqs.FirstNone(build, items, 0);
    if k < |items| then BadTimestamp(k) else AddColumns(Seqs.Values(build, items, |items|))
  }

  /** What `process_messages` computes for a batch. */
  function ProcessedBatch(client: Sentiment.Client, clock: Clock, ms: seq<InputMessage>): Outcome
  {
    Batch(RowBuilder(client, clock), Numbered(ms))
  }

  /** The loop that appends one row per item and stops at the first item without one, then
      the step that adds the day-of-week and hour columns to the whole table. */
  method RunBatch<A>(build: A -> Option<Row>, items: seq<A>) returns (outcome: Outcome)
    ensures outcome == Batch(build, items)
  {
    var rows, bad := Seqs.CollectUntilNone(build, items);
    if bad < |items| {
      return BadTimestamp(bad);
    }
    var records, failed := Seqs.CollectUntilNone(Annotate, rows);
    if failed < |rows| {
      return DateOutOfBounds;
    }
    return Processed(records);
  }

  /** `process_messages`: the loop over the messages, numbered so that message `k` reads the
      clock at calls `2k` and `2k + 1`, and the column step. */
  method ProcessMessages(client: Sentiment.Client, clock: Clock, messages: seq<InputMessage>)
    returns (outcome: Outcome)
    ensures outcome == ProcessedBatch(client, clock, messages)
  {
    outcome := RunBatch(RowBuilder(client, clock), Numbered(messages));
  }

  // ---------------------------------------------------------------- properties

  /** `fromisoformat` raises exactly for a `None` timestamp and for a text it rejects, at
      whichever call; a present timestamp gives the same date-time at every call, and a
      missing one gives that call's reading. */
  lemma DatedSpec(clock: Clock, call: nat, other: nat, m: InputMessage)
    ensures Dated(clock, call, m).None? <==> Rejected(m)
    ensures m.timestamp.Value? ==> Dated(clock, call, m) == Dated(clock, other, m)
    ensures m.timestamp.Absent? ==> Dated(clock, call, m).Some? && Dated(clock, call, m).value == clock(call)
  {
  }

  /** The two moments of a message agree when it has a timestamp, and are two separate
      readings of the clock when it has none. */
  lemma MomentsSpec(clock: Clock, k: nat, m: InputMessage)
    requires !Rejected(m)
    ensures m.timestamp.Value? ==>
      ParseIso(m.timestamp.s).Some?
      && DateMoment(clock, k, m) == TimeMoment(clock, k, m) == ParseIso(m.timestamp.s).value
    ensures m.timestamp.Absent? ==>
      DateMoment(clock, k, m) == clock(2 * k) && TimeMoment(clock, k, m) == clock(2 * k + 1)
  {
  }

  /** The loop body yields a row exactly when the timestamp is not rejected, and the row is
      the one built for the message's two moments. */
  lemma RowOfSpec(client: Sentiment.Client, clock: Clock, k: nat, m: InputMessage)
    ensures RowBuilder(client, clock)((k, m)) == RowOf(client, clock, k, m)
    ensures RowOf(client, clock, k, m).Some? <==> !Rejected(m)
    ensures RowOf(client, clock, k, m).Some? ==>
      RowOf(client, clock, k, m).value == MakeRow(client, DateMoment(clock, k, m), TimeMoment(clock, k, m), m)
  {
  }

  /** A built row always converts, unless its date lies outside what pandas can hold; the
      day-of-week then comes from the date it was built from and the hour from the time. */
  lemma AnnotateRow(client: Sentiment.Client, d: DateTime, c: DateTime, m: InputMessage)
    requires Valid(d) && Valid(c)
    ensures var r := MakeRow(client, d, c, m);
      Annotate(r) == if InTimestampRange(d.date) then Some(Record(r, DayName(d.date), c.hour)) else None
  {
    ParseDateText(d.date);
    ParseClockText(c);
  }

  /** The second step converts every row or fails; what it converts is the rows' annotations. */
  lemma AddColumnsSpec(rows: seq<Row>)
    ensures AddColumns(rows).Processed? <==> forall j :: 0 <= j < |rows| ==> Annotate(rows[j]).Some?
    ensures AddColumns(rows).Processed? ==>
      |AddColumns(rows).records| == |rows|
      && forall j :: 0 <= j < |rows| ==> AddColumns(rows).records[j] == Annotate(rows[j]).value
    ensures !AddColumns(rows).BadTimestamp?
  {
  }

  /** For any row builder: the loop stops exactly at the first item without a row, and when
      every item has one, the column step runs on those rows in order. */
  lemma BatchSpec<A>(build: A -> Option<Row>, items: seq<A>)
    ensures var o := Batch(build, items);
      && (o.BadTimestamp? <==> exists k :: 0 <= k < |items| && build(items[k]).None?)
      && (o.BadTimestamp? ==>
            o.index < |items| && build(items[o.index]).None?
            && forall j :: 0 <= j < o.index ==> build(items[j]).Some?)
      && ((forall j :: 0 <= j < |items| ==> build(items[j]).Some?) ==>
            o == AddColumns(Seqs.Values(build, items, |items|)))
  {
    var k := Seqs.FirstNone(build, items, 0);
    if exists j :: 0 <= j < |items| && build(items[j]).None? {
      assert k < |items|;
    }
  }

  /** The loop body applied to the numbered messages. */
  lemma BuilderSpec(client: Sentiment.Client, clock: Clock, ms: seq<InputMessage>)
    ensures forall j :: 0 <= j < |ms| ==>
      RowBuilder(client, clock)(Numbered(ms)[j]) == RowOf(client, clock, j, ms[j])
    ensures forall j :: 0 <= j < |ms| ==>
      (RowBuilder(client, clock)(Numbered(ms)[j]).None? <==> Rejected(ms[j]))
  {
    forall j | 0 <= j < |ms|
      ensures RowBuilder(client, clock)(Numbered(ms)[j]) == RowOf(client, clock, j, ms[j])
      ensures RowBuilder(client, clock)(Numbered(ms)[j]).None? <==> Rejected(ms[j])
    {
      assert Numbered(ms)[j] == (j, ms[j]);
      RowOfSpec(client, clock, j, ms[j]);
    }
  }

  /** Without a rejected timestamp the loop appends exactly the rows built one by one, and the
      column step runs on them. */
  lemma CleanBatch(client: Sentiment.Client, clock: Clock, ms: seq<InputMessage>)
    requires forall j :: 0 <= j < |ms| ==> !Rejected(ms[j])
    ensures ProcessedBatch(client, clock, ms) == AddColumns(Rows(client, clock, ms))
  {
    var build := RowBuilder(client, clock);
    var numbered := Numbered(ms);
    BuilderSpec(client, clock, ms);
    BatchSpec(build, numbered);
    var values := Seqs.Values(build, numbered, |ms|);
    var rows := Rows(client, clock, ms);
    forall j | 0 <= j < |ms| ensures values[j] == rows[j] {
      RowOfSpec(client, clock, j, ms[j]);
    }
    assert values == rows;
  }

  /** The annotation of each row built one by one. */
  lemma RowsAnnotated(client: Sentiment.Client, clock: Clock, ms: seq<InputMessage>)
    requires forall j :: 0 <= j < |ms| ==> !Rejected(ms[j])
    ensures var rows := Rows(client, clock, ms);
      forall j :: 0 <= j < |ms| ==>
        Annotate(rows[j])
          == if InTimestampRange(DateMoment(clock, j, ms[j]).date)
             then Some(Record(rows[j], DayName(DateMoment(clock, j, ms[j]).date), TimeMoment(clock, j, ms[j]).hour))
             else None
  {
    var rows := Rows(client, clock, ms);
    forall j | 0 <= j < |ms|
      ensures Annotate(rows[j])
          == if InTimestampRange(DateMoment(clock, j, ms[j]).date)
             then Some(Record(rows[j], DayName(DateMoment(clock, j, ms[j]).date), TimeMoment(clock, j, ms[j]).hour))
             else None
    {
      AnnotateRow(client, DateMoment(clock, j, ms[j]), TimeMoment(clock, j, ms[j]), ms[j]);
    }
  }

  /** How a batch ends: at the first rejected timestamp; else with the conversion error
      exactly when some message is dated outside the pandas range; else with one record per
      message. */
  lemma OutcomeSpec(client: Sentiment.Client, clock: Clock, ms: seq<InputMessage>)
    ensures var o := ProcessedBatch(client, clock, ms);
      && (o.BadTimestamp? <==> exists k :: 0 <= k < |ms| && Rejected(ms[k]))
      && (o.BadTimestamp? ==>
            o.index < |ms| && Rejected(ms[o.index])
            && forall j :: 0 <= j < o.index ==> !Rejected(ms[j]))
      && (o.DateOutOfBounds? <==>
            && (forall j :: 0 <= j < |ms| ==> !Rejected(ms[j]))
            && exists j :: 0 <= j < |ms| && !InTimestampRange(DateMoment(clock, j, ms[j]).date))
      && (o.Processed? ==> |o.records| == |ms|)
  {
    StopSpec(client, clock, ms);
    if forall j :: 0 <= j < |ms| ==> !Rejected(ms[j]) {
      CleanOutcome(client, clock, ms);
    }
  }

  /** The loop ends the batch exactly at the first rejected timestamp. */
  lemma StopSpec(client: Sentiment.Client, clock: Clock, ms: seq<InputMessage>)
    ensures var o := ProcessedBatch(client, clock, ms);
      && (o.BadTimestamp? <==> exists k :: 0 <= k < |ms| && Rejected(ms[k]))
      && (o.BadTimestamp? ==>
            o.index < |ms| && Rejected(ms[o.index])
            && forall j :: 0 <= j < o.index ==> !Rejected(ms[j]))
  {
    BuilderSpec(client, clock, ms);
    BatchSpec(RowBuilder(client, clock), Numbered(ms));
  }

  /** Without a rejected timestamp the batch fails exactly when some date lies outside the
      pandas range, and otherwise has one record per message. */
  lemma CleanOutcome(client: Sentiment.Client, clock: Clock, ms: seq<InputMessage>)
    requires forall j :: 0 <= j < |ms| ==> !Rejected(ms[j])
    ensures var o := ProcessedBatch(client, clock, ms);
      && !o.BadTimestamp?
      && (o.DateOutOfBounds? <==> exists j :: 0 <= j < |ms| && !InTimestampRange(DateMoment(clock, j, ms[j]).date))
      && (o.Processed? ==> |o.records| == |ms|)
  {
    CleanBatch(client, clock, ms);
    RowsAnnotated(client, clock, ms);
    AddColumnsSpec(Rows(client, clock, ms));
  }

  /** Record `i` of a processed batch is the row of message `i` with the day of the week of
      its date moment and the hour of its time moment. */
  lemma RecordAt(client: Sentiment.Client, clock: Clock, ms: seq<InputMessage>, i: nat)
    requires ProcessedBatch(client, clock, ms).Processed? && i < |ms|
    ensures !Rejected(ms[i])
    ensures var d := DateMoment(clock, i, ms[i]); var c := TimeMoment(clock, i, ms[i]);
      && |ProcessedBatch(client, clock, ms).records| == |ms|
      && ProcessedBatch(client, clock, ms).records[i] == Record(MakeRow(client, d, c, ms[i]), DayName(d.date), c.hour)
      && InTimestampRange(d.date)
  {
    OutcomeSpec(client, clock, ms);
    CleanBatch(client, clock, ms);
    RowsAnnotated(client, clock, ms);
    AddColumnsSpec(Rows(client, clock, ms));
  }

  /** Every field of the row of message number `k`, as `process_messages` promises it. The
      identifier, author, timestamp and type are copied (a missing author stays missing); the
      original text is the text, "" when the key is missing and `None` when it holds `None`;
      the text column is the cleaned text, and category, keywords, sentiment and length are
      computed from it; date and clock come from the message's timestamp, are cut out of it
      when it has seconds, and come from two separate readings of the clock when it is
      missing. */
  lemma RowSpec(client: Sentiment.Client, clock: Clock, k: nat, m: InputMessage)
    requires !Rejected(m)
    ensures var d := DateMoment(clock, k, m); var c := TimeMoment(clock, k, m);
      var r := MakeRow(client, d, c, m); var cleaned := CleanedText(m);
      && r.messageId == m.messageId && r.author == m.author && r.msgType == m.msgType
      && (m.timestamp.Value? ==> r.time == Some(m.timestamp.s)) && (!m.timestamp.Value? ==> r.time.None?)
      && (m.text.Value? ==> r.originalText == Some(m.text.s) && r.length <= |m.text.s|)
      && (m.text.Absent? ==> r.originalText == Some(""))
      && (m.text.Null? ==> r.originalText.None?)
      && (!m.text.Value? ==> r.text == "")
      && r.text == cleaned && r.length == |cleaned|
      && r.category == Categorizer.Categorize(cleaned) && r.category in Categorizer.Labels
      && r.keywords == Text.Join(Keywords.ExtractKeywords(cleaned), ", ")
      && r.sentiment == Sentiment.AnalyzeSentiment(client, cleaned)
      && r.sentiment in Sentiment.SentimentLabels
      && r.date == DateText(d.date) && r.timeOfDay == ClockText(c)
      && (m.timestamp.Value? && |m.timestamp.s| == 19 ==>
            r.date == m.timestamp.s[..10] && r.timeOfDay == m.timestamp.s[11..16])
      && (m.timestamp.Absent? ==>
            r.date == DateText(clock(2 * k).date) && r.timeOfDay == ClockText(clock(2 * k + 1)))
  {
    MomentsSpec(clock, k, m);
    var cleaned := CleanedText(m);
    if m.text.Value? {
      TextCleaner.CleanTextSpec(m.text.s);
    }
    Categorizer.CategorizeSpec(cleaned);
    if m.timestamp.Value? && |m.timestamp.s| == 19 {
      IsoFormatOfParse(m.timestamp.s);
      IsoFormatParts(DateMoment(clock, k, m));
    }
  }

  /** The two table-wide columns of a processed batch: the English day name of the record's
      date moment and the hour of its time moment, 0 to 23. */
  lemma ColumnsSpec(client: Sentiment.Client, clock: Clock, ms: seq<InputMessage>, i: nat)
    requires ProcessedBatch(client, clock, ms).Processed? && i < |ms|
    ensures var rec := ProcessedBatch(client, clock, ms).records[i];
      && !Rejected(ms[i])
      && rec.weekday == DayName(DateMoment(clock, i, ms[i]).date) && rec.weekday in WeekdayNames
      && rec.hour == TimeMoment(clock, i, ms[i]).hour && 0 <= rec.hour < 24
  {
    RecordAt(client, clock, ms, i);
  }

  /** No message, no rows: the empty table. */
  lemma EmptyBatch(client: Sentiment.Client, clock: Clock)
    ensures ProcessedBatch(client, clock, []) == Processed([])
  {
    BatchSpec(RowBuilder(client, clock), Numbered([]));
  }

  /** A first message whose timestamp holds `None` ends the batch with the `TypeError`. */
  lemma NullTimestamp(client: Sentiment.Client, clock: Clock, ms: seq<InputMessage>)
    requires |ms| > 0 && ms[0].timestamp.Null?
    ensures ProcessedBatch(client, clock, ms) == BadTimestamp(0)
  {
    OutcomeSpec(client, clock, ms);
  }

  /** A single message without a timestamp takes its date from the first reading of the clock
      and its time of day and hour from the second. */
  lemma MissingTimestamp(client: Sentiment.Client, clock: Clock, m: InputMessage)
    requires m.timestamp.Absent? && InTimestampRange(clock(0).date)
    ensures ProcessedBatch(client, clock, [m]).Processed?
    ensures var rec := ProcessedBatch(client, clock, [m]).records[0];
      && rec.row.date == DateText(clock(0).date) && rec.weekday == DayName(clock(0).date)
      && rec.row.timeOfDay == ClockText(clock(1)) && rec.hour == clock(1).hour
  {
    MomentsSpec(clock, 0, m);
    OutcomeSpec(client, clock, [m]);
    RecordAt(client, clock, [m], 0);
  }

  /** When the two readings fall on either side of midnight, the record of a message without
      a timestamp carries Monday's date and day name but the hour 0 of Tuesday. */
  lemma MidnightSplit(client: Sentiment.Client, clock: Clock, m: InputMessage)
    requires m.timestamp.Absent?
    requires clock(0) == DateTime(Date(2024, 1, 15), 23, 59, 59)
    requires clock(1) == DateTime(Date(2024, 1, 16), 0, 0, 0)
    ensures ProcessedBatch(client, clock, [m]).Processed?
    ensures var rec := ProcessedBatch(client, clock, [m]).records[0];
      && rec.row.date == DateText(Date(2024, 1, 15)) && rec.weekday == "Monday"
      && rec.hour == 0 && rec.row.timeOfDay == ClockText(DateTime(Date(2024, 1, 16), 0, 0, 0))
  {
    assert InTimestampRange(clock(0).date);
    MissingTimestamp(client, clock, m);
    MondayAnchors();
  }
}
