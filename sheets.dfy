/** The computed parts of the Google Sheets client (`GoogleSheetsClient`): the rows the summary
    sheet is written with, the cell ranges the data sheet is formatted with, the lookup of a
    spreadsheet by title, and the address of a spreadsheet. The gspread calls themselves are
    not modelled. */
module Sheets {
  import opened Options
  import opened Timestamps
  import Seqs

  // ---------------------------------------------------------------- write_summary_to_sheet

  /** A value of the summary dictionary as `str()` renders it: a scalar, or a nested
      dictionary given as its rendered (key, value) pairs in dictionary order. */
  datatype Entry = Scalar(text: string) | Nested(items: seq<(string, string)>)

  const Blank: seq<string> := ["", "", ""]

  const Heading: seq<string> := ["Метрика", "Значение", ""]

  /** `datetime.now().strftime("%Y-%m-%d %H:%M:%S")`. */
  function UpdatedText(now: DateTime): string
    requires Valid(now)
  {
    DateText(now.date) + " " + ClockText(now) + ":" + Pad2(now.second)
  }

  function Footer(now: DateTime): seq<string>
    requires Valid(now)
  {
    ["Последнее обновление", UpdatedText(now), ""]
  }

  /** The rows of the nested dictionary's entries, each key indented by two spaces. */
  function SubRows(items: seq<(string, string)>): (rows: seq<seq<string>>)
  {
    seq(|items|, i requires 0 <= i < |items| => ["  " + items[i].0, items[i].1, ""])
  }

  /** The rows one summary entry is written as. */
  function EntryRows(key: string, value: Entry): seq<seq<string>>
  {
    match value
    case Scalar(text) => [[key, text, ""]]
    case Nested(items) => [[key, "", ""]] + SubRows(items) + [Blank]
  }

  const Expand: ((string, Entry)) -> seq<seq<string>> := (entry: (string, Entry)) => EntryRows(entry.0, entry.1)

  /** The rows of the entries, in summary order. */
  function EntriesRows(summary: seq<(string, Entry)>): seq<seq<string>>
  {
    Seqs.FlatMap(Expand, summary)
  }

  /** The list `summary_data` is written with. */
  function SummaryRows(summary: seq<(string, Entry)>, now: DateTime): seq<seq<string>>
    requires Valid(now)
  {
    [Heading, Blank] + EntriesRows(summary) + [Blank, Footer(now)]
  }

  /** The number of rows an entry takes. */
  function EntrySize(value: Entry): nat
  {
    match value
    case Scalar(_) => 1
    case Nested(items) => |items| + 2
  }

  /** The number of rows the entries take. */
  function RowCount(summary: seq<(string, Entry)>): nat
  {
    if summary == [] then 0 else RowCount(summary[..|summary| - 1]) + EntrySize(summary[|summary| - 1].1)
  }

  /** The row building of `write_summary_to_sheet`: the heading and a blank row, then for each
      entry of the summary either its one row or, for a nested dictionary, a row with its key,
      a row per entry of it and a blank row, and at the end a blank row and the time of the
      update. `now` stands for `datetime.now()`. */
  method BuildSummaryRows(summary: seq<(string, Entry)>, now: DateTime) returns (rows: seq<seq<string>>)
    requires Valid(now)
    ensures rows == SummaryRows(summary, now)
  {
    rows := [Heading, Blank];
    for i := 0 to |summary|
      invariant rows == [Heading, Blank] + EntriesRows(summary[..i])
    {
      var (key, value) := summary[i];
      ghost var before := rows;
      match value {
        case Nested(items) =>
          rows := rows + [[key, "", ""]];
          for j := 0 to |items|
            invariant rows == before + [[key, "", ""]] + SubRows(items[..j])
          {
            assert SubRows(items[..j + 1]) == SubRows(items[..j]) + [["  " + items[j].0, items[j].1, ""]];
            rows := rows + [["  " + items[j].0, items[j].1, ""]];
          }
          assert items[..|items|] == items;
          rows := rows + [Blank];
        case Scalar(text) =>
          rows := rows + [[key, text, ""]];
      }
      assert summary[..i + 1][..i] == summary[..i];
    }
    assert summary[..|summary|] == summary;
    rows := rows + [Blank, Footer(now)];
  }

  // ---------------------------------------------------------------- properties of the rows

  lemma {:induction false} EntriesRowsShape(summary: seq<(string, Entry)>)
    ensures |EntriesRows(summary)| == RowCount(summary)
    ensures forall k :: 0 <= k < |EntriesRows(summary)| ==> |EntriesRows(summary)[k]| == 3
    decreases |summary|
  {
    if summary != [] {
      var init := summary[..|summary| - 1];
      var last := summary[|summary| - 1];
      EntriesRowsShape(init);
      assert summary == init + [last];
      Seqs.FlatMapAppend(Expand, init, [last]);
      Seqs.FlatMapSingle(Expand, last);
    }
  }

  /** Every row has three cells, and there are four rows besides those of the entries: one
      for a scalar and two more than its size for a nested dictionary. */
  lemma SummaryRowsShape(summary: seq<(string, Entry)>, now: DateTime)
    requires Valid(now)
    ensures var rows := SummaryRows(summary, now);
      && |rows| == 4 + RowCount(summary)
      && forall k :: 0 <= k < |rows| ==> |rows[k]| == 3
  {
    EntriesRowsShape(summary);
    var rows := SummaryRows(summary, now);
    var middle := EntriesRows(summary);
    forall k | 0 <= k < |rows| ensures |rows[k]| == 3 {
      if 2 <= k < 2 + |middle| {
        assert rows[k] == middle[k - 2];
      }
    }
  }

  /** The rows open with the heading and a blank row and close with a blank row and the time
      of the update. */
  lemma SummaryRowsFrame(summary: seq<(string, Entry)>, now: DateTime)
    requires Valid(now)
    ensures var rows := SummaryRows(summary, now);
      && rows[0] == ["Метрика", "Значение", ""] && rows[1] == ["", "", ""]
      && rows[|rows| - 2] == ["", "", ""]
      && rows[|rows| - 1] == ["Последнее обновление", UpdatedText(now), ""]
  {
  }

  /** The rows of an entry: a scalar's single row `[key, str(value), ""]`, or a nested
      dictionary's key row, one indented row per entry in its order, and a blank row. */
  lemma EntryRowsSpec(key: string, value: Entry)
    ensures var own := EntryRows(key, value);
      && |own| == EntrySize(value)
      && (value.Scalar? ==> own[0] == [key, value.text, ""])
      && (value.Nested? ==>
            && own[0] == [key, "", ""]
            && (forall j :: 0 <= j < |value.items| ==>
                  own[1 + j] == ["  " + value.items[j].0, value.items[j].1, ""])
            && own[|value.items| + 1] == ["", "", ""])
  {
    if value.Nested? {
      var own := EntryRows(key, value);
      forall j | 0 <= j < |value.items|
        ensures own[1 + j] == ["  " + value.items[j].0, value.items[j].1, ""]
      {
        assert own[1 + j] == SubRows(value.items)[j];
      }
    }
  }

  /** The entries' rows are those of the entries before `i`, then entry `i`'s own rows, then
      those of the entries after it. */
  lemma EntriesSplit(summary: seq<(string, Entry)>, i: nat)
    requires i < |summary|
    ensures EntriesRows(summary)
      == EntriesRows(summary[..i]) + EntryRows(summary[i].0, summary[i].1) + EntriesRows(summary[i + 1..])
  {
    var before := summary[..i];
    var entry := summary[i];
    var after := summary[i + 1..];
    assert summary == before + [entry] + after;
    Seqs.FlatMapAppend(Expand, before + [entry], after);
    Seqs.FlatMapAppend(Expand, before, [entry]);
    Seqs.FlatMapSingle(Expand, entry);
  }

  /** The rows of entry `i` come right after those of the entries before it. */
  lemma EntrySlice(summary: seq<(string, Entry)>, now: DateTime, i: nat)
    requires Valid(now) && i < |summary|
    ensures var rows := SummaryRows(summary, now); var start := 2 + RowCount(summary[..i]);
      var own := EntryRows(summary[i].0, summary[i].1);
      && start + EntrySize(summary[i].1) <= |rows|
      && rows[start..start + EntrySize(summary[i].1)] == own
      && forall k :: 0 <= k < |own| ==> rows[start + k] == own[k]
  {
    var p, q := [Heading, Blank], [Blank, Footer(now)];
    var a, b, c := EntriesRows(summary[..i]), EntryRows(summary[i].0, summary[i].1), EntriesRows(summary[i + 1..]);
    EntriesSplit(summary, i);
    assert SummaryRows(summary, now) == p + (a + b + c) + q;
    EntriesRowsShape(summary[..i]);
    EntryRowsSpec(summary[i].0, summary[i].1);
    assert |p| + |a| == 2 + RowCount(summary[..i]) && |b| == EntrySize(summary[i].1);
    Seqs.SliceInside(p, a, b, c, q);
  }

  /** Entry `i` of the summary is written, in summary order, right after the rows of the
      entries before it: a scalar as the single row `[key, str(value), ""]`, a nested
      dictionary as its key row, one indented row per entry in its order, and a blank row. */
  lemma EntryPlacement(summary: seq<(string, Entry)>, now: DateTime, i: nat)
    requires Valid(now) && i < |summary|
    ensures var rows := SummaryRows(summary, now); var (key, value) := summary[i];
      var start := 2 + RowCount(summary[..i]);
      && start + EntrySize(value) <= |rows|
      && (value.Scalar? ==> rows[start] == [key, value.text, ""])
      && (value.Nested? ==>
            && rows[start] == [key, "", ""]
            && (forall j :: 0 <= j < |value.items| ==>
                  rows[start + 1 + j] == ["  " + value.items[j].0, value.items[j].1, ""])
            && rows[start + |value.items| + 1] == ["", "", ""])
  {
    EntrySlice(summary, now, i);
    EntryRowsSpec(summary[i].0, summary[i].1);
  }

  /** The update time is the `isoformat()` text of `now` with a space for the `T`, so it reads
      back as `now`. */
  lemma UpdatedTextParses(now: DateTime)
    requires Valid(now)
    ensures var u := UpdatedText(now);
      && |u| == 19 && u[10] == ' '
      && ParseIso(u[..10] + "T" + u[11..]) == Some(now)
  {
    var u := UpdatedText(now);
    IsoFormatParts(now);
    assert u[..10] + "T" + u[11..] == IsoFormat(now);
    ParseIsoFormat(now);
  }

  // ---------------------------------------------------------------- write_data_to_sheet ranges

  /** `chr(code)`; `None` for the `ValueError` outside the code points, and also for the
      surrogate code points, which a Dafny string cannot hold. */
  function Chr(code: int): (r: Option<char>)
    ensures r.Some? ==> r.value as int == code
  {
    if 0 <= code < 0xD800 || 0xE000 <= code < 0x11_0000 then Some(code as char) else None
  }

  /** The range the header row of a sheet with `columns` columns is formatted with:
      `'A1:' + chr(ord('A') + columns - 1) + '1'`. */
  function HeaderRange(columns: nat): Option<string>
  {
    match Chr('A' as int + columns - 1)
    case None => None
    case Some(c) => Some("A1:" + [c] + "1")
  }

  /** The range column `i` (from 0) is formatted with: the letter of the column, twice. */
  function ColumnRange(i: nat): Option<string>
  {
    match Chr('A' as int + i)
    case None => None
    case Some(c) => Some([c] + ":" + [c])
  }

  const Alphabet: string := "ABCDEFGHIJKLMNOPQRSTUVWXYZ"

  lemma AlphabetCodes()
    ensures |Alphabet| == 26 && forall i :: 0 <= i < 26 ==> Alphabet[i] as int == 'A' as int + i
  {
  }

  /** For up to 26 columns the header range ends at the column's Latin letter. */
  lemma HeaderRangeLetter(columns: nat)
    requires 1 <= columns <= 26
    ensures HeaderRange(columns) == Some("A1:" + [Alphabet[columns - 1]] + "1")
  {
    AlphabetCodes();
  }

  /** Column `i` of the first 26 is formatted by its own Latin letter. */
  lemma ColumnRangeLetter(i: nat)
    requires i < 26
    ensures ColumnRange(i) == Some([Alphabet[i]] + ":" + [Alphabet[i]])
  {
    AlphabetCodes();
  }

  /** The header range ends in the column of the last column range, and different columns
      get different ranges. */
  lemma RangesAgree(columns: nat, i: nat, j: nat)
    requires 1 <= columns && HeaderRange(columns).Some? && ColumnRange(i).Some? && ColumnRange(j).Some?
    ensures ColumnRange(columns - 1).Some? && HeaderRange(columns).value[3] == ColumnRange(columns - 1).value[0]
    ensures i != j ==> ColumnRange(i) != ColumnRange(j)
  {
    if i != j {
      assert ColumnRange(i).value[0] != ColumnRange(j).value[0];
    }
  }

  /** The message table of the processor has fourteen columns, and a table without columns
      gets a range ending in the character before `A`. */
  lemma HeaderRangeExamples()
    ensures HeaderRange(14) == Some("A1:N1")
    ensures HeaderRange(0) == Some("A1:@1")
  {
    HeaderRangeLetter(14);
    assert Alphabet[13] == 'N';
    assert "A1:" + ['N'] + "1" == "A1:N1";
    assert Chr('A' as int - 1) == Some('@');
    assert "A1:" + ['@'] + "1" == "A1:@1";
  }

  // ---------------------------------------------------------------- get_or_create_spreadsheet

  /** A file entry of `list_spreadsheet_files()`. */
  type FileInfo = map<string, string>

  /** What `get_or_create_spreadsheet` ends in: the id it returns, or the exception it
      re-raises. */
  datatype Lookup = Opened(id: string) | Raised

  /** Where the search loop stops at file `f`: a file without a name raises `KeyError`, and a
      file with the title is the one found. */
  function StopsAt(title: string): FileInfo -> bool
  {
    (f: FileInfo) => "name" !in f || f["name"] == title
  }

  /** The id of the first listed file named `title`, or else the id `create` gives the new
      spreadsheet; `create` stands for `create_spreadsheet`, `None` for its exception. */
  function FindOrCreate(files: seq<FileInfo>, title: string, create: string -> Option<string>): Lookup
  {
    var k := Seqs.FirstWhere(StopsAt(title), files, 0);
    if k < |files| then
      if "name" in files[k] && "id" in files[k] then Opened(files[k]["id"]) else Raised
    else
      match create(title)
      case None => Raised
      case Some(id) => Opened(id)
  }

  /** `get_or_create_spreadsheet`: the loop over the listed files that returns at the first
      with the title, and the creation when none has it. */
  method GetOrCreateSpreadsheet(files: seq<FileInfo>, title: string, create: string -> Option<string>)
    returns (r: Lookup)
    ensures r == FindOrCreate(files, title, create)
  {
    for i := 0 to |files|
      invariant forall j :: 0 <= j < i ==> !StopsAt(title)(files[j])
    {
      var sp := files[i];
      if "name" !in sp {
        Seqs.FirstWhereIs(StopsAt(title), files, i);
        return Raised;
      }
      if sp["name"] == title {
        Seqs.FirstWhereIs(StopsAt(title), files, i);
        if "id" !in sp {
          return Raised;
        }
        return Opened(sp["id"]);
      }
    }
    Seqs.FirstWhereIs(StopsAt(title), files, |files|);
    var created := create(title);
    if created.None? {
      return Raised;
    }
    return Opened(created.value);
  }

  /** The first file with the title wins, and no spreadsheet is created. */
  lemma FirstMatchWins(files: seq<FileInfo>, title: string, create: string -> Option<string>, i: nat)
    requires i < |files| && "name" in files[i] && files[i]["name"] == title && "id" in files[i]
    requires forall j :: 0 <= j < i ==> "name" in files[j] && files[j]["name"] != title
    ensures FindOrCreate(files, title, create) == Opened(files[i]["id"])
  {
    Seqs.FirstWhereIs(StopsAt(title), files, i);
  }

  /** Creation is consulted only when no file has the title. */
  lemma CreatesOnlyWhenAbsent(files: seq<FileInfo>, title: string,
                              create1: string -> Option<string>, create2: string -> Option<string>, i: nat)
    requires i < |files| && "name" in files[i] && files[i]["name"] == title
    ensures FindOrCreate(files, title, create1) == FindOrCreate(files, title, create2)
  {
  }

  /** When every file is named and none has the title, the result is the creation's. */
  lemma CreatesWhenAbsent(files: seq<FileInfo>, title: string, create: string -> Option<string>)
    requires forall j :: 0 <= j < |files| ==> "name" in files[j] && files[j]["name"] != title
    ensures FindOrCreate(files, title, create) == (if create(title).Some? then Opened(create(title).value) else Raised)
  {
    Seqs.FirstWhereIs(StopsAt(title), files, |files|);
  }

  /** A file without a name met before a match makes the lookup raise. */
  lemma UnnamedFileRaises(files: seq<FileInfo>, title: string, create: string -> Option<string>, i: nat)
    requires i < |files| && "name" !in files[i]
    requires forall j :: 0 <= j < i ==> "name" in files[j] && files[j]["name"] != title
    ensures FindOrCreate(files, title, create) == Raised
  {
    Seqs.FirstWhereIs(StopsAt(title), files, i);
  }

  // ---------------------------------------------------------------- get_spreadsheet_url

  const UrlPrefix: string := "https://docs.google.com/spreadsheets/d/"

  /** `get_spreadsheet_url`. */
  function SpreadsheetUrl(id: string): (url: string)
  {
    UrlPrefix + id
  }

  /** The id the address ends in, when it is a spreadsheet address. */
  function IdOfUrl(url: string): Option<string>
  {
    if |UrlPrefix| <= |url| && url[..|UrlPrefix|] == UrlPrefix then Some(url[|UrlPrefix|..]) else None
  }

  /** The address starts with the prefix and carries the id unchanged after it. */
  lemma UrlRoundTrip(id: string)
    ensures IdOfUrl(SpreadsheetUrl(id)) == Some(id)
    ensures SpreadsheetUrl(id)[..|UrlPrefix|] == "https://docs.google.com/spreadsheets/d/"
  {
    var url := SpreadsheetUrl(id);
    assert url[..|UrlPrefix|] == UrlPrefix;
    assert url[|UrlPrefix|..] == id;
  }

  /** Different spreadsheets have different addresses. */
  lemma UrlInjective(a: string, b: string)
    requires SpreadsheetUrl(a) == SpreadsheetUrl(b)
    ensures a == b
  {
    UrlRoundTrip(a);
    UrlRoundTrip(b);
  }
}
