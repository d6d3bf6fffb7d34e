/** The categoriser of the message processor (`DataProcessor.categorize_message`): the first
    category, in declaration order, one of whose keywords is a substring of the lower-cased
    text wins; "Другое" is the fallback. */
module Categorizer {
  import opened Text
  import Seqs

  /** The seven categories of the table, "Другое" included. */
  datatype Category = SalesAds | Questions | InfoNews | Chat | LinksMedia | WorkBusiness | Other

  /** The table in its declaration order, which is the order the loop visits it in. */
  const Order: seq<Category> := [SalesAds, Questions, InfoNews, Chat, LinksMedia, WorkBusiness, Other]

  /** The category names as the table spells them. */
  function Label(c: Category): string
  {
    match c
    case SalesAds => "Продажи/Реклама"
    case Questions => "Вопросы"
    case InfoNews => "Информация/Новости"
    case Chat => "Общение/Чат"
    case LinksMedia => "Ссылки/Медиа"
    case WorkBusiness => "Работа/Бизнес"
    case Other => "Другое"
  }

  /** The keyword list of each category. */
  function Keywords(c: Category): seq<string>
  {
    match c
    case SalesAds => ["купить", "продать", "цена", "скидка", "акция", "предложение", "buy", "sell", "price", "discount"]
    case Questions => ["?", "как", "почему", "когда", "где", "что", "кто", "why", "when", "where", "what", "who"]
    case InfoNews => ["новость", "информация", "обновление", "важно", "news", "information", "update", "important"]
    case Chat => ["привет", "здравствуйте", "спасибо", "пока", "hello", "hi", "thanks", "bye"]
    case LinksMedia => ["http", "www", ".com", ".ru", "ссылка", "link", "video", "photo"]
    case WorkBusiness => ["работа", "проект", "задача", "дедлайн", "work", "project", "task", "deadline"]
    case Other => []
  }

  /** The seven labels. */
  const Labels: set<string> := set c: Category | c in Order :: Label(c)

  /** No two categories share a label. */
  lemma LabelInjective(c: Category, d: Category)
    requires Label(c) == Label(d)
    ensures c == d
  {
    // the labels differ in their first or second letter
    assert Label(c)[0] == Label(d)[0] && Label(c)[1] == Label(d)[1];
  }

  /** `any(keyword in text for keyword in keywords)`. */
  predicate AnyKeyword(keywords: seq<string>, text: string)
  {
    exists k :: k in keywords && Contains(text, k)
  }

  /** Category `c` of the keyword table `table` has a hit in `text`. */
  predicate HitsIn(table: Category -> seq<string>, c: Category, text: string)
  {
    AnyKeyword(table(c), text)
  }

  /** The loop over the categories with its early return: the first category whose keyword
      list in `table` has a hit, or "Другое" when the loop runs to its end. */
  function FirstMatch(table: Category -> seq<string>, text: string): Category
  {
    var k := Seqs.FirstWhere(c => HitsIn(table, c, text), Order, 0);
    if k < |Order| then Order[k] else Other
  }

  /** What the loop promises, whatever the keyword lists: it stops at one of the first six
      categories exactly when that category has a hit and no earlier one does, and it falls
      back to "Другое" exactly when none of the six has a hit and "Другое" has none either. */
  lemma FirstMatchSpec(table: Category -> seq<string>, text: string)
    ensures var c := FirstMatch(table, text);
      && (forall i :: 0 <= i < 6 ==>
            (c == Order[i] <==> HitsIn(table, Order[i], text) && forall j :: 0 <= j < i ==> !HitsIn(table, Order[j], text)))
      && (table(Other) == [] ==> (c == Other <==> forall j :: 0 <= j < 6 ==> !HitsIn(table, Order[j], text)))
  {
    var k := Seqs.FirstWhere(c => HitsIn(table, c, text), Order, 0);
    forall i | 0 <= i < 6
      ensures FirstMatch(table, text) == Order[i] <==> k == i
    {
    }
  }

  /** Category `c` has a keyword hit in `text`. */
  predicate Hits(c: Category, text: string)
  {
    HitsIn(Keywords, c, text)
  }

  /** `categorize_message`. */
  function Categorize(text: string): string
  {
    Label(FirstMatch(Keywords, Lower(text)))
  }

  /** `categorize_message` answers with one of the seven labels: that of the category the loop
      stops at, and no other, since no two categories share a label. */
  lemma CategorizeSpec(text: string)
    ensures Categorize(text) in Labels
    ensures forall c :: Categorize(text) == Label(c) <==> c == FirstMatch(Keywords, Lower(text))
  {
    var c := FirstMatch(Keywords, Lower(text));
    assert c in Order;
    forall d ensures Categorize(text) == Label(d) <==> d == c {
      if Label(c) == Label(d) { LabelInjective(c, d); }
    }
  }

  /** The label of the first of the six categories with a hit in the lower-cased text, or
      "Другое" when none of them has one. */
  lemma CategorizeFirstHit(text: string, i: nat)
    requires i < 6
    ensures Categorize(text) == Label(Order[i])
        <==> Hits(Order[i], Lower(text)) && forall j :: 0 <= j < i ==> !Hits(Order[j], Lower(text))
    ensures Categorize(text) == Label(Other) <==> forall j :: 0 <= j < 6 ==> !Hits(Order[j], Lower(text))
  {
    FirstMatchSpec(Keywords, Lower(text));
    CategorizeSpec(text);
  }

  /** No keyword is the empty string. */
  lemma KeywordsNonEmpty(c: Category, k: string)
    requires k in Keywords(c)
    ensures |k| > 0
  {
    assert "" !in Keywords(c);
  }

  /** The empty text is "Другое": no keyword is empty. */
  lemma CategorizeEmpty()
    ensures Categorize("") == Label(Other)
  {
    forall c: Category ensures !Hits(c, "") {
      forall k | k in Keywords(c) ensures !Contains("", k) {
        KeywordsNonEmpty(c, k);
      }
    }
    assert Lower("") == "";
    CategorizeFirstHit("", 0);
  }

  /** A sales keyword decides the category, whatever else the text contains. */
  lemma SalesFirst(text: string)
    requires Hits(SalesAds, Lower(text))
    ensures Categorize(text) == Label(SalesAds)
  {
    CategorizeFirstHit(text, 0);
  }

  /** A question mark without a sales keyword gives "Вопросы", even next to a link. */
  lemma QuestionBeforeLinks(text: string)
    requires Contains(Lower(text), "?") && !Hits(SalesAds, Lower(text))
    ensures Categorize(text) == Label(Questions)
  {
    assert "?" in Keywords(Questions);
    CategorizeFirstHit(text, 1);
  }

  /** "купить? сколько стоит" is a sales message although it also asks a question. */
  lemma SalesQuestionExample()
    ensures Categorize("купить? сколько стоит") == Label(SalesAds)
  {
    var s := "купить? сколько стоит";
    SalesExampleLower(s);
    SalesExampleHit(s);
    SalesFirst(s);
  }

  /** The sales example is already lower case. */
  lemma SalesExampleLower(s: string)
    requires s == "купить? сколько стоит"
    ensures Lower(s) == s
  {
    forall i | 0 <= i < |s| ensures LowerChar(s[i]) == s[i] {
      assert 'а' <= s[i] <= 'я' || s[i] == '?' || s[i] == ' ';
    }
  }

  /** The sales example starts with "купить". */
  lemma SalesExampleHit(s: string)
    requires s == "купить? сколько стоит"
    ensures Hits(SalesAds, s)
  {
    assert s[..6] == "купить";
    assert Contains(s, "купить");
    assert "купить" in Keywords(SalesAds);
  }

  /** A first letter of a sales keyword, apart from the `p` of "price". */
  predicate SalesInitial(c: char)
  {
    c == 'к' || c == 'п' || c == 'ц' || c == 'с' || c == 'а' || c == 'b' || c == 's' || c == 'd'
  }

  /** A text with no first letter of a sales keyword except the `p` of "price", and no `p`
      followed by `r`, has no sales hit. */
  lemma NoSalesHit(t: string)
    requires forall i :: 0 <= i < |t| ==> !SalesInitial(t[i])
    requires forall i :: 0 <= i < |t| - 1 && t[i] == 'p' ==> t[i + 1] != 'r'
    ensures !Hits(SalesAds, t)
  {
    forall k | k in Keywords(SalesAds) ensures !Contains(t, k) {
      ContainsAt(t, k);
      forall i: nat ensures !OccursAt(t, k, i) {
        if i + |k| <= |t| {
          assert t[i..i + |k|][0] == t[i] && t[i..i + |k|][1] == t[i + 1];
        }
      }
    }
  }

  /** "Hello, how are you? http://x.com" is a question, not a link: "Вопросы" is checked first. */
  lemma QuestionWithLinkExample()
    ensures Categorize("Hello, how are you? http://x.com") == Label(Questions)
  {
    var s := "Hello, how are you? http://x.com";
    var t := "hello, how are you? http://x.com";
    ExampleLower(s, t);
    ExampleNoSales(t);
    ExampleQuestionMark(t);
    QuestionBeforeLinks(s);
  }

  /** The lower-cased example holds a question mark. */
  lemma ExampleQuestionMark(t: string)
    requires t == "hello, how are you? http://x.com"
    ensures Contains(t, "?")
  {
    assert t[18..19] == "?";
    ContainsAt(t, "?");
    assert OccursAt(t, "?", 18);
  }

  /** The example lower-cased. */
  lemma ExampleLower(s: string, t: string)
    requires s == "Hello, how are you? http://x.com" && t == "hello, how are you? http://x.com"
    ensures Lower(s) == t
  {
    forall i | 0 <= i < |t| ensures Lower(s)[i] == t[i] {
      if i < 16 { ExampleCharsFront(s, t, i); } else { ExampleCharsBack(s, t, i); }
    }
  }

  /** The lower-cased example has no sales hit. */
  lemma ExampleNoSales(t: string)
    requires t == "hello, how are you? http://x.com"
    ensures !Hits(SalesAds, t)
  {
    var s := "Hello, how are you? http://x.com";
    forall i | 0 <= i < |t|
      ensures !SalesInitial(t[i])
      ensures i < |t| - 1 && t[i] == 'p' ==> t[i + 1] != 'r'
    {
      if i < 16 { ExampleCharsFront(s, t, i); } else { ExampleCharsBack(s, t, i); }
    }
    NoSalesHit(t);
  }

  /** The first sixteen characters of the example, one position at a time. */
  lemma ExampleCharsFront(s: string, t: string, i: int)
    requires s == "Hello, how are you? http://x.com" && t == "hello, how are you? http://x.com"
    requires 0 <= i < 16
    ensures LowerChar(s[i]) == t[i]
    ensures !SalesInitial(t[i])
    ensures t[i] != 'p'
  {
    if i < 8 {
      if i == 0 {} else if i == 1 {} else if i == 2 {} else if i == 3 {}
      else if i == 4 {} else if i == 5 {} else if i == 6 {} else {}
    } else {
      if i == 8 {} else if i == 9 {} else if i == 10 {} else if i == 11 {}
      else if i == 12 {} else if i == 13 {} else if i == 14 {} else {}
    }
  }

  /** The last sixteen characters of the example, one position at a time. */
  lemma ExampleCharsBack(s: string, t: string, i: int)
    requires s == "Hello, how are you? http://x.com" && t == "hello, how are you? http://x.com"
    requires 16 <= i < 32
    ensures LowerChar(s[i]) == t[i]
    ensures !SalesInitial(t[i])
    ensures i + 1 < |t| && t[i] == 'p' ==> t[i + 1] != 'r'
  {
    if i < 24 {
      if i == 16 {} else if i == 17 {} else if i == 18 {} else if i == 19 {}
      else if i == 20 {} else if i == 21 {} else if i == 22 {} else {}
    } else {
      if i == 24 {} else if i == 25 {} else if i == 26 {} else if i == 27 {}
      else if i == 28 {} else if i == 29 {} else if i == 30 {} else {}
    }
  }
}
