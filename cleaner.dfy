/** The text cleaner of the message processor (`DataProcessor.clean_text`): it strips the text,
    replaces every run of whitespace by one space, and then deletes every character outside an
    allow-list. */
module TextCleaner {
  import opened Text
  import Seqs

  /** The punctuation kept besides word characters and whitespace. */
  predicate IsPunctuation(c: char)
  {
    || c == '.' || c == ',' || c == '!' || c == '?' || c == '-' || c == ':' || c == ';' || c == '(' || c == ')'
    || c == '[' || c == ']' || c == '{' || c == '}' || c == '"' || c == '\'' || c == '/' || c == '@' || c == '#'
    || c == '$' || c == '%' || c == '^' || c == '&' || c == '*' || c == '+' || c == '=' || c == '~' || c == '`'
  }

  /** The characters the deletion step keeps. */
  predicate Allowed(c: char)
  {
    IsWordChar(c) || IsSpace(c) || IsPunctuation(c)
  }

  /** What is left after the whitespace at the front of `s`. */
  function SkipSpaces(s: string): (r: string)
    ensures |r| <= |s|
  {
    if s != [] && IsSpace(s[0]) then SkipSpaces(s[1..]) else s
  }

  /** `re.sub(r'\s+', ' ', s)`: every maximal run of whitespace becomes one space. */
  function CollapseWhitespace(s: string): (r: string)
    decreases |s|
  {
    if s == [] then []
    else if !IsSpace(s[0]) then [s[0]] + CollapseWhitespace(s[1..])
    else [' '] + CollapseWhitespace(SkipSpaces(s[1..]))
  }

  /** The deletion `re.sub(r'[^\w\s...]', '', s)`. */
  function DeleteDisallowed(s: string): (r: string)
  {
    Seqs.Filter(Allowed, s)
  }

  /** `clean_text`: falsy text gives "", otherwise strip, collapse, then delete. */
  function CleanText(text: string): (r: string)
  {
    if text == "" then "" else DeleteDisallowed(CollapseWhitespace(Strip(text)))
  }

  /** Skipping leading whitespace leaves a suffix that does not start with whitespace and has
      the same non-space characters. */
  lemma {:induction false} SkipSpacesKeeps(s: string)
    ensures var r := SkipSpaces(s);
      && r == s[|s| - |r|..]
      && (r == [] || !IsSpace(r[0]))
      && (forall c :: !IsSpace(c) ==> (c in r <==> c in s))
  {
    if s != [] && IsSpace(s[0]) {
      SkipSpacesKeeps(s[1..]);
      assert forall c :: c in s <==> c == s[0] || c in s[1..];
    }
  }

  /** No whitespace character other than a plain space, and no two spaces side by side. */
  predicate SingleSpaced(s: string)
  {
    && (forall i :: 0 <= i < |s| && IsSpace(s[i]) ==> s[i] == ' ')
    && (forall i :: 0 < i < |s| && s[i] == ' ' ==> s[i - 1] != ' ')
  }

  /** Putting a non-space character, or a space before a non-space, in front of a
      single-spaced text keeps it single-spaced. */
  lemma ConsSingleSpaced(c: char, r: string)
    requires SingleSpaced(r)
    requires !IsSpace(c) || (c == ' ' && (r == [] || r[0] != ' '))
    ensures SingleSpaced([c] + r)
  {
    var t := [c] + r;
    forall i | 0 < i < |t| && t[i] == ' ' ensures t[i - 1] != ' ' {
      if i > 1 { assert t[i - 1] == r[i - 2] && t[i] == r[i - 1]; }
    }
  }

  /** Collapsing never lengthens the text, leaves it single-spaced, and starts with a space
      only where the input starts with whitespace. */
  lemma {:induction false} CollapseWhitespaceSpaced(s: string)
    ensures var r := CollapseWhitespace(s);
      && |r| <= |s|
      && SingleSpaced(r)
      && ((r == [] || r[0] == ' ') ==> (s == [] || IsSpace(s[0])))
    decreases |s|
  {
    if s == [] {
    } else if !IsSpace(s[0]) {
      CollapseWhitespaceSpaced(s[1..]);
      ConsSingleSpaced(s[0], CollapseWhitespace(s[1..]));
    } else {
      var rest := SkipSpaces(s[1..]);
      SkipSpacesKeeps(s[1..]);
      CollapseWhitespaceSpaced(rest);
      ConsSingleSpaced(' ', CollapseWhitespace(rest));
    }
  }

  /** Collapsing keeps every non-space character and brings in no other. */
  lemma {:induction false} CollapseWhitespaceKeeps(s: string)
    ensures forall c :: !IsSpace(c) ==> (c in CollapseWhitespace(s) <==> c in s)
    decreases |s|
  {
    if s == [] {
    } else if !IsSpace(s[0]) {
      CollapseWhitespaceKeeps(s[1..]);
      assert forall c :: c in s <==> c == s[0] || c in s[1..];
    } else {
      var rest := SkipSpaces(s[1..]);
      SkipSpacesKeeps(s[1..]);
      CollapseWhitespaceKeeps(rest);
      assert forall c :: c in s <==> c == s[0] || c in s[1..];
    }
  }

  /** A single-spaced text is left as it is: collapsing twice is collapsing once. */
  lemma {:induction false} CollapseSingleSpaced(s: string)
    requires SingleSpaced(s)
    ensures CollapseWhitespace(s) == s
    decreases |s|
  {
    if s != [] {
      var t := s[1..];
      assert SingleSpaced(t) by {
        forall i | 0 < i < |t| && t[i] == ' ' ensures t[i - 1] != ' ' {
          assert t[i] == s[i + 1] && t[i - 1] == s[i];
        }
      }
      CollapseSingleSpaced(t);
      if IsSpace(s[0]) {
        assert t == [] || !IsSpace(t[0]) by {
          if t != [] { assert s[1] == t[0]; }
        }
      }
    }
  }

  /** Collapsing is idempotent. */
  lemma CollapseIdempotent(s: string)
    ensures CollapseWhitespace(CollapseWhitespace(s)) == CollapseWhitespace(s)
  {
    CollapseWhitespaceSpaced(s);
    CollapseSingleSpaced(CollapseWhitespace(s));
  }

  /** What `clean_text` promises. The empty text gives the empty text; the result is never
      longer than the input; its only whitespace is the plain space (no tab or newline
      survives); every character in it is a word character, a space or listed punctuation; and
      its non-space characters are exactly the allowed non-space characters of the input. */
  lemma CleanTextSpec(text: string)
    ensures var r := CleanText(text);
      && (text == "" ==> r == "")
      && |r| <= |text|
      && (forall c :: c in r ==> IsWordChar(c) || c == ' ' || IsPunctuation(c))
      && (forall c :: c in r && IsSpace(c) ==> c == ' ')
      && (forall c :: !IsSpace(c) ==> (c in r <==> c in text && Allowed(c)))
  {
    if text != "" {
      var stripped := Strip(text);
      StripCuts(text);
      var collapsed := CollapseWhitespace(stripped);
      CollapseWhitespaceSpaced(stripped);
      CollapseWhitespaceKeeps(stripped);
      Seqs.FilterSpec(Allowed, collapsed);
      forall c | c in collapsed && IsSpace(c) ensures c == ' ' {
        var i :| 0 <= i < |collapsed| && collapsed[i] == c;
      }
    }
  }

  /** `clean_text` is not idempotent: deleting a character after the whitespace was collapsed
      can bring two spaces together, which a second cleaning collapses. */
  lemma CleanTextNotIdempotent()
    ensures CleanText(CleanText("a \U{1F600} b")) != CleanText("a \U{1F600} b")
  {
    CleanTextEmojiGap();
    CleanTextDoubleSpace();
  }

  /** An emoji between two spaces leaves both spaces behind. */
  lemma CleanTextEmojiGap()
    ensures CleanText("a \U{1F600} b") == "a  b"
  {
    var e := '\U{1F600}';
    var s := ['a', ' ', e, ' ', 'b'];
    assert s == "a \U{1F600} b";
    assert !IsSpace(e) && !Allowed(e);
    assert SingleSpaced(s);
    CollapseSingleSpaced(s);
    CleanTextOfCollapsed(s);
    Seqs.FilterAppend(Allowed, ['a', ' '], [e, ' ', 'b']);
    Seqs.FilterAppend(Allowed, [e], [' ', 'b']);
  }

  /** Two spaces in a row become one. */
  lemma CleanTextDoubleSpace()
    ensures CleanText("a  b") == "a b"
  {
    DoubleSpace("a", "b");
    CleanTextOfCollapsed("a  b");
    assert DeleteDisallowed("a b") == "a b";
  }

  /** An emoji at the front leaves a leading space behind. */
  lemma CleanTextLeadingSpace()
    ensures CleanText("\U{1F600} hi") == " hi"
  {
    var e := '\U{1F600}';
    var s := [e, ' ', 'h', 'i'];
    assert s == "\U{1F600} hi";
    assert !IsSpace(e) && !Allowed(e);
    assert SingleSpaced(s);
    CollapseSingleSpaced(s);
    CleanTextOfCollapsed(s);
    Seqs.FilterAppend(Allowed, [e], " hi");
  }

  /** Cleaning a text whose ends are not whitespace collapses and filters it directly. */
  lemma CleanTextOfCollapsed(s: string)
    requires s != [] && !IsSpace(s[0]) && !IsSpace(s[|s| - 1])
    ensures CleanText(s) == DeleteDisallowed(CollapseWhitespace(s))
  {
    assert TrimStart(s) == s;
    assert TrimEnd(s) == s;
  }

  /** Two spaces between two non-space characters become one. */
  lemma DoubleSpace(a: string, b: string)
    requires |a| == 1 && !IsSpace(a[0]) && |b| == 1 && !IsSpace(b[0])
    ensures CollapseWhitespace(a + "  " + b) == a + " " + b
  {
    var s := a + "  " + b;
    assert s[1..] == "  " + b;
    assert ("  " + b)[1..] == " " + b;
    assert (" " + b)[1..] == b;
    assert SkipSpaces(b) == b;
    assert SkipSpaces(" " + b) == b;
    assert CollapseWhitespace(b) == b;
  }
}
