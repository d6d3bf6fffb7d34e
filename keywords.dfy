/** The keyword extractor of the message processor (`DataProcessor.extract_keywords`). The text
    is lower-cased, cut into the tokens the pattern `\b[a-zA-Zа-яА-Я]{3,}\b` finds, stop words
    and short tokens are dropped, the first ten survivors are kept, and only then are
    duplicates removed. */
module Keywords {
  import opened Text
  import opened Seqs

  /** The letters of the token pattern (note that `ё` is not among them). */
  predicate IsTokenLetter(c: char)
  {
    'a' <= c <= 'z' || 'A' <= c <= 'Z' || 'а' <= c <= 'я' || 'А' <= c <= 'Я'
  }

  /** A lower-case token letter. */
  predicate IsLowerTokenLetter(c: char)
  {
    'a' <= c <= 'z' || 'а' <= c <= 'я'
  }

  /** Membership in the stop-word set. */
  predicate IsStopWord(w: string)
  {
    || w == "это" || w == "как" || w == "что" || w == "когда" || w == "где" || w == "почему"
    || w == "который" || w == "для" || w == "с" || w == "на" || w == "и" || w == "в"
    || w == "не" || w == "по" || w == "к" || w == "у" || w == "от" || w == "до"
    || w == "о" || w == "об" || w == "при" || w == "за" || w == "так" || w == "же"
    || w == "быть" || w == "был" || w == "была" || w == "было" || w == "будет" || w == "есть"
    || w == "are" || w == "the" || w == "is" || w == "at" || w == "which" || w == "on"
    || w == "and" || w == "or" || w == "but" || w == "in" || w == "with" || w == "to"
    || w == "for" || w == "of" || w == "as" || w == "by" || w == "that" || w == "this"
    || w == "it" || w == "from"
  }

  // ---------------------------------------------------------------- the scanner

  /* The scanner and its lemmas are stated for any class `letter` of pattern letters inside
     any class `word` of word characters; `Tokens` uses the token letters and `\w`. */

  /** Every character of class `letter` is of class `word`. */
  ghost predicate Within(letter: char -> bool, word: char -> bool)
  {
    forall c :: letter(c) ==> word(c)
  }

  /** The token letters are word characters, so `\b` never falls inside a run of them. */
  lemma TokenLettersAreWordChars()
    ensures Within(IsTokenLetter, IsWordChar)
  {
  }

  /** How many characters of class `letter` `s` starts with. */
  function RunLength(letter: char -> bool, s: string): (n: nat)
    ensures n <= |s|
    ensures s != [] && letter(s[0]) ==> n >= 1
  {
    if s != [] && letter(s[0]) then 1 + RunLength(letter, s[1..]) else 0
  }

  /** The run is made of letters and is maximal. */
  lemma {:induction false} RunLengthSpec(letter: char -> bool, s: string)
    ensures var n := RunLength(letter, s);
      && (forall i :: 0 <= i < n ==> letter(s[i]))
      && (n < |s| ==> !letter(s[n]))
  {
    if s != [] && letter(s[0]) {
      RunLengthSpec(letter, s[1..]);
      var n := RunLength(letter, s);
      forall i | 0 <= i < n ensures letter(s[i]) {
        if i > 0 {
          assert s[i] == s[1..][i - 1];
        }
      }
    }
  }

  /** `re.findall(r'\b[L]{3,}\b', s)` for the letter class `L`, where `afterWord` says
      whether the character just before `s` is a word character. The scan jumps from run to
      run: a run of letters is kept when it is three or more long with no word character right
      before or right after it. */
  function Scan(letter: char -> bool, word: char -> bool, s: string, afterWord: bool): (r: seq<string>)
    decreases |s|
  {
    if s == [] then []
    else if letter(s[0]) then
      var n := RunLength(letter, s);
      var rest := s[n..];
      (if !afterWord && n >= 3 && (rest == [] || !word(rest[0])) then [s[..n]] else [])
        + Scan(letter, word, rest, true)
    else
      Scan(letter, word, s[1..], word(s[0]))
  }

  /** `re.findall(r'\b[a-zA-Zа-яА-Я]{3,}\b', s)`. */
  function Tokens(s: string): seq<string>
  {
    Scan(IsTokenLetter, IsWordChar, s, false)
  }

  /** The test of the comprehension: not a stop word, and three or more characters long. */
  predicate IsCandidate(w: string)
  {
    !IsStopWord(w) && |w| > 2
  }

  /** `list(set(keywords[:10]))`. Python leaves the order of the result to the set; the model
      lists each keyword at its first occurrence. */
  function SelectKeywords(words: seq<string>): seq<string>
  {
    Distinct(Take(Filter(IsCandidate, words), 10))
  }

  /** `extract_keywords`. */
  function ExtractKeywords(text: string): seq<string>
  {
    SelectKeywords(Tokens(Lower(text)))
  }

  // ---------------------------------------------------------------- the matches of the pattern

  /** `s[i..j]` is a match of `\b[L]{3,}\b`: three or more letters with no word character
      right before and none right after. */
  predicate IsMatch(letter: char -> bool, word: char -> bool, s: string, i: nat, j: nat)
  {
    && i + 3 <= j <= |s|
    && (forall k :: i <= k < j ==> letter(s[k]))
    && (i == 0 || !word(s[i - 1]))
    && (j == |s| || !word(s[j]))
  }

  /** The matches that start at `i` or later, found by trying every start in turn: at each
      start the greedy repetition takes the whole run of letters, and a shorter run cannot end
      at a word boundary. */
  function MatchesFrom(letter: char -> bool, word: char -> bool, s: string, i: nat): seq<string>
    requires i <= |s|
    decreases |s| - i
  {
    if i == |s| then [] else MatchAt(letter, word, s, i) + MatchesFrom(letter, word, s, i + 1)
  }

  /** The match that starts at `i`, if there is one: the greedy repetition takes the whole run
      of letters from `i`. */
  function MatchAt(letter: char -> bool, word: char -> bool, s: string, i: nat): seq<string>
    requires i < |s|
  {
    var j := i + RunLength(letter, s[i..]);
    if IsMatch(letter, word, s, i, j) then [s[i..j]] else []
  }

  /** The matches from `i` on are the match at `i`, if there is one, and those from `i + 1`
      on. */
  lemma MatchesFromStep(letter: char -> bool, word: char -> bool, s: string, i: nat)
    requires i < |s|
    ensures MatchesFrom(letter, word, s, i) == MatchAt(letter, word, s, i) + MatchesFrom(letter, word, s, i + 1)
  {
  }

  /** The run of letters at `s[i]`, in positions of `s`. */
  lemma RunAt(letter: char -> bool, s: string, i: nat)
    requires i < |s| && letter(s[i])
    ensures var n := RunLength(letter, s[i..]);
      && 1 <= n && i + n <= |s|
      && (forall k :: i <= k < i + n ==> letter(s[k]))
      && (i + n < |s| ==> !letter(s[i + n]))
  {
    var t := s[i..];
    var n := RunLength(letter, t);
    RunLengthSpec(letter, t);
    forall k | i <= k < i + n ensures letter(s[k]) {
      assert t[k - i] == s[k];
    }
    if i + n < |s| {
      assert t[n] == s[i + n];
    }
  }

  /** A match ends where the run of letters from its first character ends. */
  lemma MatchEnd(letter: char -> bool, word: char -> bool, s: string, i: nat, j: nat)
    requires Within(letter, word) && IsMatch(letter, word, s, i, j)
    ensures j == i + RunLength(letter, s[i..])
  {
    RunAt(letter, s, i);
  }

  /** No match starts inside a run of letters: every start after the first letter of the run
      has a letter right before it. */
  lemma {:induction false} NoMatchInRun(letter: char -> bool, word: char -> bool, s: string, i: nat, m: nat, e: nat)
    requires Within(letter, word)
    requires i < m <= e <= |s|
    requires forall k :: i <= k < e ==> letter(s[k])
    ensures MatchesFrom(letter, word, s, m) == MatchesFrom(letter, word, s, e)
    decreases e - m
  {
    if m < e {
      MatchesFromStep(letter, word, s, m);
      assert letter(s[m - 1]);
      NoMatchInRun(letter, word, s, i, m + 1, e);
    }
  }

  /** At a letter the scan takes the whole run, keeps it exactly when it is a match, and goes
      on after the run, right after a word character. */
  lemma ScanAtLetter(letter: char -> bool, word: char -> bool, s: string, i: nat)
    requires Within(letter, word)
    requires i < |s| && letter(s[i])
    ensures var n := RunLength(letter, s[i..]);
      && 1 <= n && i + n <= |s|
      && (forall k :: i <= k < i + n ==> letter(s[k]))
      && word(s[i + n - 1])
      && Scan(letter, word, s[i..], i > 0 && word(s[i - 1]))
         == MatchAt(letter, word, s, i) + Scan(letter, word, s[i + n..], true)
  {
    RunAt(letter, s, i);
    var t := s[i..];
    var n := RunLength(letter, t);
    var aw := i > 0 && word(s[i - 1]);
    assert t[0] == s[i];
    ScanAtRun(letter, word, t, aw);
    assert n < |t| ==> t[n] == s[i + n];
    assert (!aw && n >= 3 && (n == |t| || !word(t[n]))) <==> IsMatch(letter, word, s, i, i + n);
    assert t[..n] == s[i..i + n];
    assert t[n..] == s[i + n..];
    assert letter(s[i + n - 1]);
  }

  /** At a character that is not a letter no match starts, and the scan steps over it. */
  lemma ScanAtOther(letter: char -> bool, word: char -> bool, s: string, i: nat)
    requires i < |s| && !letter(s[i])
    ensures MatchAt(letter, word, s, i) == []
    ensures Scan(letter, word, s[i..], i > 0 && word(s[i - 1]))
      == Scan(letter, word, s[i + 1..], word(s[i]))
  {
    var t := s[i..];
    assert t[0] == s[i];
    assert t[1..] == s[i + 1..];
  }

  /** One step of the scan at a letter, on the scanned text itself. */
  lemma ScanAtRun(letter: char -> bool, word: char -> bool, t: string, aw: bool)
    requires t != [] && letter(t[0])
    ensures var n := RunLength(letter, t);
      Scan(letter, word, t, aw)
        == (if !aw && n >= 3 && (n == |t| || !word(t[n])) then [t[..n]] else [])
           + Scan(letter, word, t[n..], true)
  {
    var n := RunLength(letter, t);
    assert t[n..] == [] <==> n == |t|;
    assert n < |t| ==> t[n..][0] == t[n];
  }

  /** Scanning the text from `i` on finds exactly the matches that start at `i` or later. */
  lemma {:induction false} ScanFrom(letter: char -> bool, word: char -> bool, s: string, i: nat)
    requires Within(letter, word)
    requires i <= |s|
    ensures Scan(letter, word, s[i..], i > 0 && word(s[i - 1])) == MatchesFrom(letter, word, s, i)
    decreases |s| - i
  {
    if i == |s| {
      assert s[i..] == [];
    } else if letter(s[i]) {
      RunAt(letter, s, i);
      var n := RunLength(letter, s[i..]);
      ScanFrom(letter, word, s, i + n);
      ScanLetterStep(letter, word, s, i);
    } else {
      ScanFrom(letter, word, s, i + 1);
      ScanOtherStep(letter, word, s, i);
    }
  }

  /** The step of `ScanFrom` at a letter: the scan and the matches agree from `i` on when they
      agree after the run that starts at `i`. */
  lemma ScanLetterStep(letter: char -> bool, word: char -> bool, s: string, i: nat)
    requires Within(letter, word)
    requires i < |s| && letter(s[i])
    requires var n := RunLength(letter, s[i..]);
      && i + n <= |s|
      && Scan(letter, word, s[i + n..], i + n > 0 && word(s[i + n - 1])) == MatchesFrom(letter, word, s, i + n)
    ensures Scan(letter, word, s[i..], i > 0 && word(s[i - 1])) == MatchesFrom(letter, word, s, i)
  {
    var aw := i > 0 && word(s[i - 1]);
    var here := MatchAt(letter, word, s, i);
    var n := RunLength(letter, s[i..]);
    RunAt(letter, s, i);
    calc {
      Scan(letter, word, s[i..], aw);
      { ScanAtLetter(letter, word, s, i); }
      here + Scan(letter, word, s[i + n..], true);
      { assert word(s[i + n - 1]); }
      here + MatchesFrom(letter, word, s, i + n);
      { NoMatchInRun(letter, word, s, i, i + 1, i + n); }
      here + MatchesFrom(letter, word, s, i + 1);
      { MatchesFromStep(letter, word, s, i); }
      MatchesFrom(letter, word, s, i);
    }
  }

  /** The step of `ScanFrom` at a character that is not a letter. */
  lemma ScanOtherStep(letter: char -> bool, word: char -> bool, s: string, i: nat)
    requires i < |s| && !letter(s[i])
    requires Scan(letter, word, s[i + 1..], i + 1 > 0 && word(s[i + 1 - 1])) == MatchesFrom(letter, word, s, i + 1)
    ensures Scan(letter, word, s[i..], i > 0 && word(s[i - 1])) == MatchesFrom(letter, word, s, i)
  {
    var aw := i > 0 && word(s[i - 1]);
    MatchesFromStep(letter, word, s, i);
    var here := MatchAt(letter, word, s, i);
    ScanAtOther(letter, word, s, i);
    calc {
      Scan(letter, word, s[i..], aw);
      Scan(letter, word, s[i + 1..], word(s[i]));
      MatchesFrom(letter, word, s, i + 1);
      here + MatchesFrom(letter, word, s, i + 1);
      MatchesFrom(letter, word, s, i);
    }
  }

  /** `w` is a match of the pattern in `s` that starts at `i` or later. */
  ghost predicate MatchedFrom(letter: char -> bool, word: char -> bool, s: string, i: nat, w: string)
  {
    exists a: nat, b: nat :: i <= a && IsMatch(letter, word, s, a, b) && w == s[a..b]
  }

  /** Every word among the matches from `i` on is a matching substring starting at `i` or
      later, given that this holds from `i + 1` on. */
  lemma MembersForward(letter: char -> bool, word: char -> bool, s: string, i: nat, w: string)
    requires i < |s| && w in MatchesFrom(letter, word, s, i)
    requires w in MatchesFrom(letter, word, s, i + 1) ==> MatchedFrom(letter, word, s, i + 1, w)
    ensures MatchedFrom(letter, word, s, i, w)
  {
    MatchesFromStep(letter, word, s, i);
    var j := i + RunLength(letter, s[i..]);
    if IsMatch(letter, word, s, i, j) && w == s[i..j] {
      assert i <= i && IsMatch(letter, word, s, i, j) && w == s[i..j];
    } else {
      assert w in MatchesFrom(letter, word, s, i + 1);
      var a: nat, b: nat :| i + 1 <= a && IsMatch(letter, word, s, a, b) && w == s[a..b];
      assert i <= a && IsMatch(letter, word, s, a, b) && w == s[a..b];
    }
  }

  /** Every matching substring starting at `i` or later is among the matches from `i` on,
      given that this holds from `i + 1` on. */
  lemma MembersBackward(letter: char -> bool, word: char -> bool, s: string, i: nat, w: string)
    requires Within(letter, word)
    requires i < |s| && MatchedFrom(letter, word, s, i, w)
    requires MatchedFrom(letter, word, s, i + 1, w) ==> w in MatchesFrom(letter, word, s, i + 1)
    ensures w in MatchesFrom(letter, word, s, i)
  {
    MatchesFromStep(letter, word, s, i);
    var a: nat, b: nat :| i <= a && IsMatch(letter, word, s, a, b) && w == s[a..b];
    if a == i {
      MatchEnd(letter, word, s, i, b);
    } else {
      assert MatchedFrom(letter, word, s, i + 1, w);
    }
  }

  /** The matches from `i` on are exactly the substrings `s[a..b]` with `a >= i` that match. */
  lemma {:induction false} MatchesFromMembers(letter: char -> bool, word: char -> bool, s: string, i: nat)
    requires Within(letter, word)
    requires i <= |s|
    ensures forall w :: w in MatchesFrom(letter, word, s, i) <==> MatchedFrom(letter, word, s, i, w)
    decreases |s| - i
  {
    if i < |s| {
      MatchesFromMembers(letter, word, s, i + 1);
      forall w ensures w in MatchesFrom(letter, word, s, i) <==> MatchedFrom(letter, word, s, i, w) {
        if w in MatchesFrom(letter, word, s, i) {
          MembersForward(letter, word, s, i, w);
        }
        if MatchedFrom(letter, word, s, i, w) {
          MembersBackward(letter, word, s, i, w);
        }
      }
    }
  }

  /** `s[i..j]` is a match of `\b[a-zA-Zа-яА-Я]{3,}\b`. */
  predicate IsTokenMatch(s: string, i: nat, j: nat)
  {
    IsMatch(IsTokenLetter, IsWordChar, s, i, j)
  }

  /** `re.findall` lists exactly the matches of the pattern, in the order of their start. */
  lemma TokensAreMatches(s: string)
    ensures Tokens(s) == MatchesFrom(IsTokenLetter, IsWordChar, s, 0)
  {
    TokenLettersAreWordChars();
    assert s[0..] == s;
    ScanFrom(IsTokenLetter, IsWordChar, s, 0);
  }

  /** Both directions: a word is a token exactly when it is a match of the pattern somewhere
      in the text. */
  lemma TokensMembers(s: string)
    ensures forall w :: w in Tokens(s) <==> exists a: nat, b: nat :: IsTokenMatch(s, a, b) && w == s[a..b]
  {
    TokensAreMatches(s);
    TokenLettersAreWordChars();
    MatchesFromMembers(IsTokenLetter, IsWordChar, s, 0);
    forall w ensures w in Tokens(s) <==> exists a: nat, b: nat :: IsTokenMatch(s, a, b) && w == s[a..b] {
      assert w in Tokens(s) <==> MatchedFrom(IsTokenLetter, IsWordChar, s, 0, w);
    }
  }

  /** A concrete scan: "abc" is found, and "d" is too short. */
  lemma TokensExample()
    ensures Tokens("abc d") == ["abc"]
  {
    var s := "abc d";
    assert s[1..] == "bc d" && s[2..] == "c d" && s[3..] == " d" && s[..3] == "abc";
    assert RunLength(IsTokenLetter, " d") == 0;
    assert RunLength(IsTokenLetter, "c d") == 1 + RunLength(IsTokenLetter, " d");
    assert RunLength(IsTokenLetter, "bc d") == 1 + RunLength(IsTokenLetter, "c d");
    assert RunLength(IsTokenLetter, s) == 1 + RunLength(IsTokenLetter, "bc d");
    assert " d"[1..] == "d" && "d"[1..] == "";
    assert RunLength(IsTokenLetter, "d") == 1;
    assert Scan(IsTokenLetter, IsWordChar, "d", false) == [] + Scan(IsTokenLetter, IsWordChar, "", true);
    assert Scan(IsTokenLetter, IsWordChar, " d", true) == Scan(IsTokenLetter, IsWordChar, "d", false);
  }

  // ---------------------------------------------------------------- properties of the tokens

  /** Every token is three or more letters, all taken from the scanned text. */
  lemma {:induction false} ScanTokens(letter: char -> bool, word: char -> bool, s: string, afterWord: bool)
    ensures forall w :: w in Scan(letter, word, s, afterWord) ==>
      |w| >= 3 && forall c :: c in w ==> letter(c) && c in s
    decreases |s|
  {
    if s == [] {
    } else if letter(s[0]) {
      var n := RunLength(letter, s);
      RunLengthSpec(letter, s);
      ScanTokens(letter, word, s[n..], true);
      assert forall c :: c in s[n..] ==> c in s;
      assert forall c :: c in s[..n] ==> letter(c) && c in s;
    } else {
      ScanTokens(letter, word, s[1..], word(s[0]));
      assert forall c :: c in s[1..] ==> c in s;
    }
  }

  /** The tokens of a lower-cased text are lower-case. */
  lemma LowerTokens(text: string)
    ensures forall w :: w in Tokens(Lower(text)) ==>
      |w| >= 3 && forall c :: c in w ==> IsLowerTokenLetter(c)
  {
    var lowered := Lower(text);
    ScanTokens(IsTokenLetter, IsWordChar, lowered, false);
    forall w, c | w in Tokens(lowered) && c in w ensures IsLowerTokenLetter(c) {
      var i :| 0 <= i < |lowered| && lowered[i] == c;
      assert c == LowerChar(text[i]);
    }
  }

  /** What `extract_keywords` promises. At most ten keywords, no duplicates; each is three or
      more lower-case Latin or Cyrillic letters and not a stop word; and the keywords are
      exactly the distinct members of the first ten filtered tokens. */
  lemma KeywordsSpec(text: string)
    ensures var r := ExtractKeywords(text);
      var first := Take(Filter(IsCandidate, Tokens(Lower(text))), 10);
      && |r| <= 10
      && NoDuplicates(r)
      && (forall w :: w in r <==> w in first)
      && (forall w :: w in r ==>
            |w| >= 3 && !IsStopWord(w) && forall c :: c in w ==> IsLowerTokenLetter(c))
  {
    var tokens := Tokens(Lower(text));
    var filtered := Filter(IsCandidate, tokens);
    var first := Take(filtered, 10);
    DistinctSpec(first);
    FilterSpec(IsCandidate, tokens);
    LowerTokens(text);
    var r := ExtractKeywords(text);
    assert r == Distinct(first);
    forall w | w in r
      ensures |w| >= 3 && !IsStopWord(w) && forall c :: c in w ==> IsLowerTokenLetter(c)
    {
      assert w in first;
      assert w in filtered;
      assert w in tokens && IsCandidate(w);
    }
  }

  /** Truncation comes before de-duplication: ten repetitions of one keyword hide every later
      keyword, so one keyword results although two distinct ones are present. */
  lemma {:induction false} TruncateBeforeDedupe(w: string, v: string)
    requires IsCandidate(w)
    ensures SelectKeywords(seq(10, _ => w) + [v]) == [w]
  {
    var words := seq(10, _ => w) + [v];
    FilterSpec(IsCandidate, seq(10, _ => w));
    FilterAppend(IsCandidate, seq(10, _ => w), [v]);
    var filtered := Filter(IsCandidate, words);
    assert Take(filtered, 10) == seq(10, _ => w);
    DistinctRepeat(w, 10);
  }

  /** De-duplicating a run of one element leaves that element once. */
  lemma {:induction false} DistinctRepeat(w: string, n: nat)
    requires n > 0
    ensures Distinct(seq(n, _ => w)) == [w]
  {
    var s := seq(n, _ => w);
    RemoveAllOfRepeat(s[1..], w);
  }

  lemma {:induction false} RemoveAllOfRepeat(s: seq<string>, w: string)
    requires forall i :: 0 <= i < |s| ==> s[i] == w
    ensures RemoveAll(s, w) == []
  {
    if s != [] {
      RemoveAllOfRepeat(s[1..], w);
    }
  }
}
