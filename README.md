# WhatsApp AI agent: a verified model of the message pipeline

The agent reads messages from WhatsApp groups and adds one row per message to a Google
spreadsheet. Each row carries the message's cleaned text, category, keywords, sentiment and
date. A summary sheet holds counts and distributions. This project models the computing core
of that pipeline in Dafny and proves properties of it. The core has three parts:

- **The message processor** (`DataProcessor`), in these modules:
  - `TextCleaner`: the text cleaner (`clean_text`).
  - `Keywords`: the keyword extractor (`extract_keywords`).
  - `Categorizer`: the first-match categoriser (`categorize_message`).
  - `Sentiment`: the label logic of the sentiment annotator (`analyze_sentiment`).
  - `Records`: the record builder (`process_messages`). It builds one row per message and then
    adds the day-of-week and hour columns to the whole table.
  - `Summary`: the summary (`generate_summary`).
  - Shared helpers:
    - `Timestamps`: the ISO 8601 parser and printer, the calendar and the day of the week.
    - `Tallies`: `value_counts` and `groupby().size()`.
    - `Sorting`: Python's string order and stable sort.
    - `Seqs` and `Text`: sequence and string helpers.
- **The WhatsApp client** (`WhatsApp`), which does three things:
  - it normalises one raw API message (`process_message`);
  - it filters the conversation list with `is_group` (`get_groups_list`);
  - it merges several groups' messages into one list, newest first
    (`get_messages_from_multiple_groups`).
- **The Sheets client** (`Sheets`), which computes four things:
  - the summary rows (`write_summary_to_sheet`);
  - the header and column ranges (`write_data_to_sheet`);
  - the spreadsheet lookup by title (`get_or_create_spreadsheet`);
  - the spreadsheet address (`get_spreadsheet_url`).

The model follows the source's form. The parts that work step by step are methods with loops,
each proved equal to a specification function:

- `Records.ProcessMessages` appends rows in a loop and stops at the first exception.
- `WhatsApp.MergeGroups` extends a list group by group and then sorts it.
- `Sheets.BuildSummaryRows` appends rows in nested loops.
- `Sheets.GetOrCreateSpreadsheet` searches with an early return.

The lemmas then state what the source promises about those functions. Everything else is a
pure function.

Inputs and outside services:

- Outside calls become parameters or inputs:
  - the OpenAI reply is a function from text to an answer or a failure;
  - in `process_messages`, `datetime.now()` is the sequence of its readings, in call order;
    in the Sheets client it is a parameter;
  - `datetime.fromtimestamp` in local time is a function from seconds to a date-time or a failure;
  - what the HTTP requests return is an input list;
  - `create_spreadsheet` is a function from a title to an id or a failure.
- An exception that ends an operation is an explicit result:
  - `Records.Outcome` for `process_messages`;
  - `None` from `WhatsApp.ProcessMessage`;
  - `Sheets.Lookup.Raised` for `get_or_create_spreadsheet`.

Where the code's behaviour differs from what one might expect, the model follows the code and
proves the difference:

- `clean_text` is not idempotent. It deletes characters after it collapses whitespace, so
  deleting an emoji can leave two spaces together or a leading space
  (`TextCleaner.CleanTextNotIdempotent`, `TextCleaner.CleanTextLeadingSpace`).
- "Hello, how are you? http://x.com" is categorised "Вопросы", not "Ссылки/Медиа", because the
  question category is tried first (`Categorizer.QuestionWithLinkExample`).
- Date edge cases in `process_messages`:
  - An unparsable timestamp ends the whole batch with an exception, and so does a timestamp
    of `None` (`Records.NullTimestamp`). A text of `None` does not: it cleans to "" and is
    kept as `None` in the original-text column (`Records.RowSpec`).
  - Every message reads the clock twice, once for the date and once for the time of day,
    even when it has a timestamp, because the default of `get` is computed first. Without a
    timestamp the two readings can fall on either side of midnight, giving one day's date
    and day name with the next day's hour (`Records.MidnightSplit`).
  - A date outside the range of pandas' nanosecond timestamps (1677-09-22 to 2262-04-11) makes
    the column step raise (`Records.OutcomeSpec`).
- `extract_keywords` truncates before it removes duplicates. Fewer than ten keywords can
  therefore come back even when more distinct ones exist (`Keywords.TruncateBeforeDedupe`).
- The author seen by the message processor is missing when the message has none. The
  "Unknown" default exists only in the WhatsApp client.
- The weekday distribution is ordered alphabetically by day name, as `groupby` sorts it, not by
  calendar order.

## Model

| member | source | states |
|---|---|---|
| TextCleaner.CleanTextSpec | data_processor.py:13-24 | Empty text gives "". The result is never longer than the input. Its only whitespace is the plain space, so no tab or newline survives. Every character is a word character, a space or listed punctuation. Its non-space characters are exactly the allowed non-space characters of the input. |
| TextCleaner.CleanTextNotIdempotent | data_processor.py:19-22 | Cleaning "a 😀 b" twice differs from cleaning it once, because the deletion runs after the collapse. |
| TextCleaner.CleanTextEmojiGap | data_processor.py:19-22 | Deleting an emoji between two spaces leaves a double space. |
| TextCleaner.CleanTextDoubleSpace | data_processor.py:19 | A double space between two words is collapsed to one. |
| TextCleaner.CleanTextLeadingSpace | data_processor.py:19-22 | Deleting a leading emoji leaves a leading space. |
| TextCleaner.CollapseIdempotent | data_processor.py:19 | The whitespace collapse alone is idempotent. |
| TextCleaner.CollapseSingleSpaced | data_processor.py:19 | Text without whitespace other than isolated plain spaces passes the collapse unchanged. |
| TextCleaner.CollapseWhitespaceSpaced | data_processor.py:19 | After the collapse, whitespace occurs only as isolated plain spaces. |
| TextCleaner.CollapseWhitespaceKeeps | data_processor.py:19 | The collapse never lengthens the text and keeps exactly its non-space characters. |
| TextCleaner.SkipSpacesKeeps | data_processor.py:19 | Skipping a whitespace run leaves a suffix that starts with a non-space and keeps the same non-space characters. |
| TextCleaner.CleanTextOfCollapsed | data_processor.py:15-22 | For text whose ends are not whitespace, the strip changes nothing. |
| TextCleaner.DoubleSpace | data_processor.py:19 | Two spaces between single non-space characters collapse to one. |
| Text.StripCuts | data_processor.py:19 | `strip` removes a whitespace prefix and a whitespace suffix and nothing else. Its result neither starts nor ends with whitespace. |
| Text.TrimStartCuts | data_processor.py:19 | Trimming the front removes exactly a whitespace prefix. |
| Text.TrimEndCuts | data_processor.py:19 | Trimming the end removes exactly a whitespace suffix. |
| Text.ContainsAt | data_processor.py:53 | Substring containment holds exactly when the keyword occurs at some position. |
| Keywords.KeywordsSpec | data_processor.py:26-36 | At most ten keywords and no duplicates. Each keyword has three or more lower-case Latin or Cyrillic letters and is not a stop word. The keywords are exactly the distinct members of the first ten filtered tokens. |
| Keywords.TruncateBeforeDedupe | data_processor.py:34-36 | Ten repetitions of one keyword hide every later keyword, so only one keyword results. |
| Keywords.ScanTokens | data_processor.py:29 | For any letter class, every token found has three or more letters of the class, all taken from the text. |
| Keywords.TokensAreMatches | data_processor.py:29 | `findall` lists exactly the matches of the pattern, by increasing start. `s[i..j]` is a match when it has three or more pattern letters, no word character just before `i` and none at `j`. |
| Keywords.TokensMembers | data_processor.py:29 | Both directions: a word is a token exactly when it is a match `s[a..b]` somewhere in the text. |
| Keywords.TokensExample | data_processor.py:29 | "abc d" gives ["abc"]: "d" is too short. |
| Keywords.ScanFrom | data_processor.py:29 | Scanning from any position, jumping from run to run of letters, finds exactly the matches that start there or later. |
| Keywords.MatchesFromMembers | data_processor.py:29 | The matches from a position on are exactly the matching substrings that start there or later. |
| Keywords.MatchEnd | data_processor.py:29 | A match ends where the run of letters from its start ends, since the repetition is greedy. |
| Keywords.NoMatchInRun | data_processor.py:29 | No match starts inside a run of letters, because `\b` needs a non-word character before the start. |
| Keywords.TokenLettersAreWordChars | data_processor.py:29 | The pattern letters are word characters, so `\b` never falls inside a run of them. |
| Keywords.LowerTokens | data_processor.py:29 | The tokens of the lower-cased text consist of lower-case letters only. |
| Keywords.RunLengthSpec | data_processor.py:29 | A token is a maximal run of pattern letters. |
| Categorizer.FirstMatchSpec | data_processor.py:52-56 | For any keyword table, the loop returns a category exactly when that category has a hit and no earlier category does. It returns "Другое" exactly when none of the six has a hit. |
| Categorizer.CategorizeSpec | data_processor.py:38-56 | The result is one of the seven labels: the label of the category the loop stops at, and no other. |
| Categorizer.CategorizeFirstHit | data_processor.py:40-56 | The label-level statement, both directions: the first of the six categories with a keyword in the lower-cased text wins, and otherwise the result is "Другое". |
| Categorizer.LabelInjective | data_processor.py:42-50 | No two categories share a label. |
| Categorizer.KeywordsNonEmpty | data_processor.py:43-49 | No keyword is the empty string. |
| Categorizer.CategorizeEmpty | data_processor.py:49-56 | Empty text is "Другое". |
| Categorizer.SalesFirst | data_processor.py:43-54 | A sales keyword decides the category, whatever else the text holds. |
| Categorizer.QuestionBeforeLinks | data_processor.py:44-54 | Text with "?" and no sales keyword is "Вопросы", even when it contains a link. |
| Categorizer.SalesQuestionExample | data_processor.py:43-54 | "купить? сколько стоит" is "Продажи/Реклама". |
| Categorizer.QuestionWithLinkExample | data_processor.py:44-54 | "Hello, how are you? http://x.com" is "Вопросы". |
| Categorizer.NoSalesHit | data_processor.py:43 | Text without the initial letters of the sales keywords has no sales hit. |
| Sentiment.AnalyzeSentiment | data_processor.py:58-79 | The result is always one of the four labels. Without a client it is "Не определено". It is "Не определено" exactly when there is no client or the request fails. An expected word, once stripped, is returned as is, and any other reply gives "Нейтральная". |
| Sentiment.PaddedAnswer | data_processor.py:74-75 | A reply padded with whitespace around an expected word is read as that word. |
| Sentiment.UnexpectedAnswer | data_processor.py:74-75 | "Позитивная." with its full stop is read as "Нейтральная". |
| Records.ProcessMessages | data_processor.py:81-113 | The row loop and the column step compute exactly the batch outcome the specification function defines. Message k reads the clock at calls 2k and 2k+1. |
| Records.RunBatch | data_processor.py:83-113 | For any row builder, the loop that stops at the first item without a row, followed by the column step, computes the batch function. |
| Records.BatchSpec | data_processor.py:83-113 | For any row builder, the batch stops exactly at the first item without a row. When every item has one, the column step runs on those rows in order. |
| Records.OutcomeSpec | data_processor.py:81-113 | The batch ends at the first timestamp `fromisoformat` raises for, `None` or a text it rejects. Otherwise it fails with the conversion error exactly when some date is outside the pandas range. Otherwise it yields one record per message. |
| Records.StopSpec | data_processor.py:83-101 | The loop ends the batch exactly at the first rejected timestamp. |
| Records.CleanOutcome | data_processor.py:106-113 | Without a rejected timestamp the batch fails exactly when some date is outside the pandas range, and otherwise has one record per message. |
| Records.CleanBatch | data_processor.py:83-106 | Without a rejected timestamp the loop appends exactly the rows built one message at a time. |
| Records.RecordAt | data_processor.py:83-111 | Record i is the row of message i, in input order, with the day name of its date moment and the hour of its time moment. |
| Records.RowSpec | data_processor.py:86-102 | Each field of a row, as listed below this table. |
| Records.ColumnsSpec | data_processor.py:109-111 | The day-of-week column is the English day name of the record's date moment. The hour column is the hour of its time moment, 0 to 23. |
| Records.RowOfSpec | data_processor.py:85-104 | The loop body yields a row exactly when the timestamp is not rejected. The row is the one built for the message's two moments. |
| Records.DatedSpec | data_processor.py:100-101 | `fromisoformat` of the timestamp, defaulting to the ISO form of `now`, raises exactly for `None` and for a text it rejects. A present timestamp gives the same date-time at every call, and a missing one gives that call's reading. |
| Records.MomentsSpec | data_processor.py:100-101 | With a timestamp, the date and the time of day come from the same parsed date-time. Without one they come from clock readings 2k and 2k+1. |
| Records.OriginalText | data_processor.py:86 | `get("text", "")` is `None` exactly when the key holds `None`. |
| Records.AnnotateRow | data_processor.py:109-111 | A built row converts exactly when its date lies in the pandas range. It then carries the day name of its date moment and the hour of its time moment. |
| Records.RowsAnnotated | data_processor.py:109-111 | Each row built one at a time converts exactly when its date is in range, with its own day name and hour. |
| Records.AddColumnsSpec | data_processor.py:106-111 | The column step converts every row or fails. Its records are the rows' annotations, in order. |
| Records.EmptyBatch | data_processor.py:106-113 | No messages give the empty table. |
| Records.NullTimestamp | data_processor.py:100 | A first message whose timestamp is `None` ends the batch with the `TypeError` at message 0. |
| Records.MissingTimestamp | data_processor.py:100-101 | A message without a timestamp takes its date and day name from the first clock reading, and its time of day and hour from the second. |
| Records.MidnightSplit | data_processor.py:100-111 | Readings of 2024-01-15 23:59:59 and 2024-01-16 00:00:00 give the date of the 15th, "Monday" and hour 0. |
| Timestamps.ParseIsoFormat | data_processor.py:100-101 | Parsing the ISO form of a date-time gives that date-time back. |
| Timestamps.IsoFormatOfParse | data_processor.py:100-101 | A 19-character text that parses is the ISO form of what it parses to, and a 16-character one is that form without its ":00". |
| Timestamps.IsoFormatParts | data_processor.py:100-101 | The `%Y-%m-%d` date is the first ten characters of the ISO form, and the `%H:%M` clock is the five after the "T". |
| Timestamps.DateTextShape | data_processor.py:100 | The `%Y-%m-%d` text of a date has date shape and names that date. |
| Timestamps.ParseDateText | data_processor.py:110 | pandas reads a date text back as its date. |
| Timestamps.ParseClockText | data_processor.py:111 | pandas reads an `HH:MM` text back as its hour and minute. |
| Timestamps.NextDayOrdinal | data_processor.py:110 | The calendar successor of a date is a valid date whose ordinal is one more. |
| Timestamps.NextDayWeekday | data_processor.py:110 | Consecutive dates fall on consecutive days of the week. |
| Timestamps.MondayAnchors | data_processor.py:110 | 0001-01-01 and 2024-01-15 were Mondays. |
| Timestamps.DaysBeforeNextYear | data_processor.py:110 | A leap year has 366 days and any other year 365. |
| Timestamps.DaysInYear | data_processor.py:110 | The months of a year add up to its length. |
| Tallies.TallySpec | data_processor.py:124-126 | The tally lists each distinct value once with its true count, and the counts sum to the input length. |
| Tallies.ValueCountsSpec | data_processor.py:125-126 | `value_counts` lists each distinct value once with its count, most frequent first, and the counts sum to the input length. |
| Tallies.TopSpec | data_processor.py:124 | `head(n)` gives at most n values with their true counts, most frequent first. No unlisted value occurs more often than a listed one. |
| Tallies.GroupSizesSpec | data_processor.py:127-128 | `groupby().size()` gives each distinct value once with its count, in strictly increasing key order, and the counts sum to the input length. |
| Seqs.DistinctCard | data_processor.py:121 | The number of distinct values is the size of their set (`nunique`). |
| Seqs.DistinctSpec | data_processor.py:36 | De-duplication keeps each element once and only the input's elements. |
| Summary.SummaryEmpty | data_processor.py:117-118 | The empty table gives the empty dictionary, and nothing else does. |
| Summary.SummaryTotals | data_processor.py:120-122 | The total is the row count. The unique-author count is the size of the set of named authors and is at most the total. |
| Summary.Mean | data_processor.py:123 | The mean times the row count is the sum of the lengths. |
| Summary.TopAuthorsSpec | data_processor.py:124 | At most five authors with their true counts, most active first, with no duplicates. An unlisted author wrote no more messages than any listed one. |
| Summary.CategoriesSpec | data_processor.py:125 | Every category of the table appears once with its count, most frequent first, and the counts sum to the total. |
| Summary.SentimentsSpec | data_processor.py:126 | Every sentiment appears once with its count, most frequent first, and the counts sum to the total. |
| Summary.HoursSpec | data_processor.py:127 | Every hour that occurs appears once with its count, in increasing order, and the counts sum to the total. |
| Summary.WeekdaysSpec | data_processor.py:128 | Every day name that occurs appears once with its count, in alphabetical order, and the counts sum to the total. |
| Summary.LexLeOrder | data_processor.py:128 | The order of day names is total and transitive. |
| Sorting.SortByPermutes | whatsapp_client.py:102 | The stable sort is a permutation of its input. |
| Sorting.SortBySorted | whatsapp_client.py:102 | The stable sort orders its input, for a total and transitive order. |
| Sorting.SortByStable | whatsapp_client.py:102 | Elements that tie keep their input order. |
| Sorting.LexLeTotal | whatsapp_client.py:102 | String order is total. |
| Sorting.LexLeTransitive | whatsapp_client.py:102 | String order is transitive. |
| Sorting.LexLeAntisymmetric | whatsapp_client.py:102 | String order is antisymmetric. |
| WhatsApp.ProcessMessageDefaults | whatsapp_client.py:72-80 | A missing author becomes "Unknown". A missing text or body becomes "". A missing type becomes "text". A missing id, sender or recipient becomes `None`. Fields that are present are copied unchanged. |
| WhatsApp.MissingTimestampIsEpoch | whatsapp_client.py:76 | A missing timestamp acts as second 0: the message is dated by the local time of the epoch. |
| WhatsApp.ProcessMessageFailures | whatsapp_client.py:72-80 | `process_message` raises for a non-dictionary message, a "text" that is not a dictionary, a timestamp text `int()` rejects, a null timestamp, or seconds the clock cannot convert. |
| WhatsApp.ProcessRawMessageFails | whatsapp_client.py:70-82 | A well-formed API message raises exactly when the clock rejects its seconds. |
| WhatsApp.ProcessRawMessage | whatsapp_client.py:70-82 | A well-formed API message comes out with its own fields and the ISO form of its local time. |
| WhatsApp.ProcessedTimestampParses | whatsapp_client.py:76 | The timestamp written is one `datetime.fromisoformat` reads back as the same local time, so the message processor can date it. |
| WhatsApp.ParseIntText | whatsapp_client.py:76 | `int(str(n)) == n` for every integer n. |
| WhatsApp.ParseIntRejects | whatsapp_client.py:76 | Stripped text that is neither digits nor a sign followed by digits is rejected. |
| WhatsApp.GroupsListSpec | whatsapp_client.py:58-60 | When every conversation is a dictionary, the list keeps exactly those whose `is_group` is truthy, each as often as it occurs. Otherwise the list stays empty. |
| WhatsApp.GroupsListAppend | whatsapp_client.py:60 | The filter keeps the original order: it distributes over concatenation. |
| WhatsApp.GroupBatchSpec | whatsapp_client.py:90-91 | A group yields all its processed messages, in order, exactly when none of them raises. |
| WhatsApp.MergeGroups | whatsapp_client.py:84-104 | The loop and the sort compute the merged list the specification function defines. |
| WhatsApp.GatheredAppend | whatsapp_client.py:86-92 | Before the sort, the list is the groups' contributions concatenated in group-id order. |
| WhatsApp.FailingGroupSkipped | whatsapp_client.py:88-99 | A group whose processing raises contributes nothing and does not stop the later groups. |
| WhatsApp.MergedSpec | whatsapp_client.py:102 | The merged list is a permutation of the gathered messages, sorted by timestamp from newest to oldest. |
| WhatsApp.MergedStable | whatsapp_client.py:102 | Messages with the same timestamp keep their gathered order, even with `reverse=True`. |
| WhatsApp.TiesAreSameStamp | whatsapp_client.py:102 | Two messages tie in the sort exactly when their timestamps are equal. |
| WhatsApp.LaterOrder | whatsapp_client.py:102 | Newest-first by timestamp is a total and transitive order. |
| WhatsApp.DigitsOfNat | whatsapp_client.py:76 | Decimal digits read back as the number they write. |
| Sheets.BuildSummaryRows | google_sheets_client.py:122-137 | The nested loops build exactly the rows the specification function defines. |
| Sheets.SummaryRowsShape | google_sheets_client.py:122-137 | Every row has three cells. There are 4 rows plus 1 per scalar entry and the sub-dictionary size plus 2 per nested entry. |
| Sheets.SummaryRowsFrame | google_sheets_client.py:122-137 | The rows start with the heading and a blank row and end with a blank row and the update time. |
| Sheets.EntryPlacement | google_sheets_client.py:126-133 | Each entry is written after those before it, in summary order. A scalar is one row. A nested dictionary is its key row, one indented row per sub-entry in order, and a blank row. |
| Sheets.EntrySlice | google_sheets_client.py:126-133 | The rows of entry i fill the slice that follows the rows of the earlier entries. |
| Sheets.EntryRowsSpec | google_sheets_client.py:127-133 | The rows of one entry, cell by cell. |
| Sheets.EntriesRowsShape | google_sheets_client.py:126-133 | The entries' rows number the row count, and each has three cells. |
| Sheets.UpdatedTextParses | google_sheets_client.py:137 | The update time is 19 characters: the ISO form of `now` with a space for the "T". |
| Sheets.HeaderRangeLetter | google_sheets_client.py:88 | For 1 to 26 columns the header range is "A1:" followed by the n-th Latin capital and "1". |
| Sheets.ColumnRangeLetter | google_sheets_client.py:95 | Column i of the first 26 gets the range "L:L" for its letter L. |
| Sheets.RangesAgree | google_sheets_client.py:88-95 | The header range ends at the last column's letter, and different columns get different ranges. |
| Sheets.HeaderRangeExamples | google_sheets_client.py:82-88 | The 14-column message table gets "A1:N1". A table with no columns gets "A1:@1". |
| Sheets.GetOrCreateSpreadsheet | google_sheets_client.py:53-67 | The search loop with its early return computes exactly the specification function's lookup. |
| Sheets.FirstMatchWins | google_sheets_client.py:57-61 | The first listed file with the title wins. |
| Sheets.CreatesOnlyWhenAbsent | google_sheets_client.py:57-64 | When some file has the title, the result does not depend on creation. |
| Sheets.CreatesWhenAbsent | google_sheets_client.py:63-64 | When no file has the title, the result is the new spreadsheet's id, or the creation's exception. |
| Sheets.UnnamedFileRaises | google_sheets_client.py:57-67 | A file without a name met before a match makes the lookup raise. |
| Sheets.UrlRoundTrip | google_sheets_client.py:176-178 | The address is the fixed prefix followed by the id, unchanged. |
| Sheets.UrlInjective | google_sheets_client.py:176-178 | Different ids give different addresses. |

`Records.RowSpec` states each field of the row built for one message:

- The id, author, timestamp and type are copied. A missing author stays missing, and a
  missing or `None` timestamp gives `None`.
- The original text is the text: "" when the key is missing and `None` when it holds `None`.
  The text column is the cleaned text, "" in both of those cases, and never longer than the
  original.
- The category, keywords, sentiment and length are computed from the cleaned text. The
  category is one of the seven labels and the sentiment one of the four.
- The date is the `YYYY-MM-DD` of the date moment and the clock the `HH:MM` of the time
  moment. Both are cut out of the timestamp when it has seconds. Without a timestamp they
  come from clock readings 2k and 2k+1.

## Left out

- I/O and outside services are not modelled. This covers:
  - the HTTP requests and their status handling, and `time.sleep`;
  - the gspread and OAuth calls that authenticate and that create, delete, update and format
    sheets;
  - the OpenAI request;
  - logging.
- Only the values these calls produce or consume are modelled. The fetched lists and the
  creation's result are inputs, and the rows, ranges, ids and addresses are results.
- The orchestration in whatsapp_agent.py and the console tool setup_groups.py are not part of
  this model. They hold no logic beyond I/O.
- Clocks and time zones: the readings of `datetime.now()` are an input, and the local-time
  conversion of `datetime.fromtimestamp` is a parameter. Readings are to the second. A missing
  timestamp is dated by the reading itself, since `fromisoformat` reads back what `isoformat`
  writes, microseconds included, and `strftime` ignores the microseconds.
- Records.InputMessage: a text or timestamp that is neither a string nor `None`, such as a
  number, is not modelled.
- Floating point: `Summary.Mean` is the exact rational mean, not a 64-bit float.
- Summary and sheet rows: the model does not connect the `Summary` datatype to the
  `Sheets.Entry` list. The `str()` rendering of its values, the float mean among them, is taken
  as already-rendered text.
- Unicode character classes: `\s`, `\w` and `str.lower()` are exact on these characters and
  treat others as neither word characters nor cased:
  - whitespace;
  - ASCII;
  - Latin-1;
  - Cyrillic from U+0400 to U+04FF.
- Keywords.ExtractKeywords: Python returns the keywords in the set's iteration order, and the
  model lists each at its first occurrence. The contracts about the keyword list do not depend
  on that order. The joined "Ключевые слова" text of a row does: `Records.RowSpec` states it
  in first-occurrence order, where Python's order may differ.
- Tallies.ValueCounts: pandas leaves the order of equal counts unspecified. The model keeps
  first-occurrence order, and the contracts do not depend on it.
- Timestamps.ParseIso: `datetime.fromisoformat` is modelled only for `YYYY-MM-DDTHH:MM` and
  `YYYY-MM-DDTHH:MM:SS`. The form is the calendar date in extended format (ISO 8601:2004,
  section 4.1.2.2) combined with a time of day (section 4.3.2). Other forms Python accepts are
  treated as rejected: the date alone (`YYYY-MM-DD`), the hour alone (`YYYY-MM-DDTHH`),
  fractions of a second, offsets, the basic format, and a space as the separator.
- Records/pandas conversion: `pd.to_datetime` is modelled on the texts the record builder
  writes. A date outside the pandas nanosecond range raises.
- WhatsApp.ParseInt: `int()` of a string with underscores between digits, or with non-ASCII
  digits, is treated as rejected.
- JSON floats are not modelled in `WhatsApp.Json`; a timestamp given as a JSON float is not
  covered.
- Sheets.Chr: Python's `chr` accepts the surrogate code points U+D800 to U+DFFF, but a Dafny
  string cannot hold them. The model gives `None` there, which affects only sheets of more than
  55,000 columns.
- `write_data_to_sheet`, `write_summary_to_sheet` and `append_data_to_sheet` return `True` or
  `False` after their gspread calls. Only the rows and ranges they compute are modelled.
