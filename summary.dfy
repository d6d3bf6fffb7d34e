/** The summary statistics of the message processor (`DataProcessor.generate_summary`), over the
    finished table. Each frequency table is the list of (value, count) pairs in the order its
    `to_dict()` lists them. */
module Summary {
  import opened Options
  import opened Seqs
  import opened Sorting
  import opened Tallies
  import Records

  /** The summary dictionary. The mean is exact: floating-point rounding is not modelled. */
  datatype Summary = Summary(
    total: nat,                        // "Всего сообщений"
    uniqueAuthors: nat,                // "Уникальных авторов"
    meanLength: real,                  // "Средняя длина сообщения"
    topAuthors: seq<(string, nat)>,    // "Самые активные авторы"
    categories: seq<(string, nat)>,    // "Популярные категории"
    sentiments: seq<(string, nat)>,    // "Распределение тональности"
    byHour: seq<(int, nat)>,           // "Сообщения по часам"
    byWeekday: seq<(string, nat)>)     // "Сообщения по дням недели"

  /** The "Автор" column without its missing values, which `nunique` and `value_counts` skip. */
  function Authors(rs: seq<Records.Record>): (r: seq<string>)
    ensures |r| <= |rs|
    ensures forall a :: a in r <==> exists i :: 0 <= i < |rs| && rs[i].row.author == Some(a)
  {
    if rs == [] then []
    else
      var rest := Authors(rs[1..]);
      assert forall i :: 0 < i < |rs| ==> rs[i] == rs[1..][i - 1];
      match rs[0].row.author
      case None => rest
      case Some(a) => [a] + rest
  }

  /** The "Категория" column. */
  function Categories(rs: seq<Records.Record>): (r: seq<string>)
    ensures |r| == |rs| && forall i :: 0 <= i < |rs| ==> r[i] == rs[i].row.category
  {
    seq(|rs|, i requires 0 <= i < |rs| => rs[i].row.category)
  }

  /** The "Тональность" column. */
  function Sentiments(rs: seq<Records.Record>): (r: seq<string>)
    ensures |r| == |rs| && forall i :: 0 <= i < |rs| ==> r[i] == rs[i].row.sentiment
  {
    seq(|rs|, i requires 0 <= i < |rs| => rs[i].row.sentiment)
  }

  /** The "Час" column. */
  function Hours(rs: seq<Records.Record>): (r: seq<int>)
    ensures |r| == |rs| && forall i :: 0 <= i < |rs| ==> r[i] == rs[i].hour
  {
    seq(|rs|, i requires 0 <= i < |rs| => rs[i].hour)
  }

  /** The "День недели" column. */
  function Weekdays(rs: seq<Records.Record>): (r: seq<string>)
    ensures |r| == |rs| && forall i :: 0 <= i < |rs| ==> r[i] == rs[i].weekday
  {
    seq(|rs|, i requires 0 <= i < |rs| => rs[i].weekday)
  }

  /** The "Длина сообщения" column added up. */
  function LengthSum(rs: seq<Records.Record>): nat
  {
    if rs == [] then 0 else rs[0].row.length + LengthSum(rs[1..])
  }

  predicate IntLe(a: int, b: int)
  {
    a <= b
  }

  /** `generate_summary`: `None` is the empty dictionary it returns for an empty table. */
  function Summarize(rs: seq<Records.Record>): Option<Summary>
  {
    if rs == [] then None
    else Some(Summary(
      |rs|,
      |Distinct(Authors(rs))|,
      Mean(LengthSum(rs), |rs|),
      Top(Authors(rs), 5),
      ValueCounts(Categories(rs)),
      ValueCounts(Sentiments(rs)),
      GroupSizes(Hours(rs), IntLe),
      GroupSizes(Weekdays(rs), LexLe)))
  }

  /** The empty table gives the empty dictionary and nothing else does. */
  lemma {:induction false} SummaryEmpty(rs: seq<Records.Record>)
    ensures Summarize(rs).None? <==> rs == []
  {
  }

  /** The total is the number of rows, and the number of authors is that of the distinct
      authors named, which is at most the total. */
  lemma {:induction false} SummaryTotals(rs: seq<Records.Record>)
    requires rs != []
    ensures var r := Summarize(rs).value;
      && r.total == |rs|
      && r.uniqueAuthors == |set a | a in Authors(rs)|
      && r.uniqueAuthors <= r.total
  {
    var authors := Authors(rs);
    DistinctCard(authors);
    DistinctSpec(authors);
  }

  /** The arithmetic mean of `n` values adding up to `sum`. */
  function Mean(sum: nat, n: nat): (m: real)
    requires n > 0
    ensures m * (n as real) == sum as real
  {
    sum as real / n as real
  }

  /** "Самые активные авторы": at most five named authors with their message counts, the most
      active first; an author who is left out wrote no more messages than any author listed,
      and fewer than five are listed only when every author is. */
  lemma {:induction false} TopAuthorsSpec(rs: seq<Records.Record>)
    requires rs != []
    ensures var top := Summarize(rs).value.topAuthors; var authors := Authors(rs);
      && |top| <= 5
      && NoDuplicates(Keys(top))
      && (forall i :: 0 <= i < |top| ==> top[i].0 in authors && top[i].1 == Count(authors, top[i].0))
      && (forall i, j :: 0 <= i < j < |top| ==> top[i].1 >= top[j].1)
      && (forall a :: a in authors && a !in Keys(top) ==>
            |top| == 5 && forall i :: 0 <= i < |top| ==> top[i].1 >= Count(authors, a))
  {
    TopSpec(Authors(rs), 5);
  }

  /** "Популярные категории": every category of the table once, with its count, the most
      frequent first, the counts adding up to the total. */
  lemma {:induction false} CategoriesSpec(rs: seq<Records.Record>)
    requires rs != []
    ensures var c := Summarize(rs).value.categories;
      && NoDuplicates(Keys(c))
      && (forall i :: 0 <= i < |c| ==> c[i].0 in Categories(rs) && c[i].1 == Count(Categories(rs), c[i].0))
      && (forall k :: 0 <= k < |rs| ==> rs[k].row.category in Keys(c))
      && (forall i, j :: 0 <= i < j < |c| ==> c[i].1 >= c[j].1)
      && SumCounts(c) == |rs|
  {
    var col := Categories(rs);
    ValueCountsSpec(col);
    forall k | 0 <= k < |rs| ensures rs[k].row.category in Keys(ValueCounts(col)) {
      assert col[k] in col;
    }
  }

  /** "Распределение тональности": every sentiment of the table once, with its count, the most
      frequent first, the counts adding up to the total. */
  lemma {:induction false} SentimentsSpec(rs: seq<Records.Record>)
    requires rs != []
    ensures var t := Summarize(rs).value.sentiments;
      && NoDuplicates(Keys(t))
      && (forall i :: 0 <= i < |t| ==> t[i].0 in Sentiments(rs) && t[i].1 == Count(Sentiments(rs), t[i].0))
      && (forall k :: 0 <= k < |rs| ==> rs[k].row.sentiment in Keys(t))
      && (forall i, j :: 0 <= i < j < |t| ==> t[i].1 >= t[j].1)
      && SumCounts(t) == |rs|
  {
    var col := Sentiments(rs);
    ValueCountsSpec(col);
    forall k | 0 <= k < |rs| ensures rs[k].row.sentiment in Keys(ValueCounts(col)) {
      assert col[k] in col;
    }
  }

  /** "Сообщения по часам": every hour that occurs once, with its count, in increasing order
      of the hour, the counts adding up to the total. */
  lemma {:induction false} HoursSpec(rs: seq<Records.Record>)
    requires rs != []
    ensures var h := Summarize(rs).value.byHour;
      && (forall i :: 0 <= i < |h| ==> h[i].0 in Hours(rs) && h[i].1 == Count(Hours(rs), h[i].0))
      && (forall k :: 0 <= k < |rs| ==> rs[k].hour in Keys(h))
      && (forall i, j :: 0 <= i < j < |h| ==> h[i].0 < h[j].0)
      && SumCounts(h) == |rs|
  {
    GroupSizesSpec(Hours(rs), IntLe);
    var h := Summarize(rs).value.byHour;
    forall k | 0 <= k < |rs| ensures rs[k].hour in Keys(h) {
      assert Hours(rs)[k] in Hours(rs);
    }
  }

  /** The order pandas sorts day names in is total and transitive. */
  lemma LexLeOrder()
    ensures Total(LexLe) && Transitive(LexLe)
  {
    forall a, b ensures LexLe(a, b) || LexLe(b, a) {
      LexLeTotal(a, b);
    }
    forall a, b, c | LexLe(a, b) && LexLe(b, c) ensures LexLe(a, c) {
      LexLeTransitive(a, b, c);
    }
  }

  /** "Сообщения по дням недели": every day name that occurs once, with its count, in
      alphabetical order (not calendar order), the counts adding up to the total. */
  lemma {:induction false} WeekdaysSpec(rs: seq<Records.Record>)
    requires rs != []
    ensures var w := Summarize(rs).value.byWeekday;
      && (forall i :: 0 <= i < |w| ==> w[i].0 in Weekdays(rs) && w[i].1 == Count(Weekdays(rs), w[i].0))
      && (forall k :: 0 <= k < |rs| ==> rs[k].weekday in Keys(w))
      && (forall i, j :: 0 <= i < j < |w| ==> LexLe(w[i].0, w[j].0) && w[i].0 != w[j].0)
      && SumCounts(w) == |rs|
  {
    LexLeOrder();
    GroupSizesSpec(Weekdays(rs), LexLe);
    var w := Summarize(rs).value.byWeekday;
    forall k | 0 <= k < |rs| ensures rs[k].weekday in Keys(w) {
      assert Weekdays(rs)[k] in Weekdays(rs);
    }
  }
}
