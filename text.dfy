/** The string helpers of the loot engine (src/engine/blackdesert.rs):
    character classes, `normalize_spaces` and `to_title_case`.

    Positions are character indices; the source indexes UTF-8 bytes in two
    places, which agree with character indices on the ASCII text that the OCR
    sanitiser lets through. Case mapping is modelled on ASCII letters only. */
module Text {
  import opened Wrappers

  /** Rust's `char::is_whitespace`: the Unicode White_Space property. */
  predicate IsWhitespace(c: char) {
    || c == ' '
    || ('\t' <= c <= '\r')
    || c == '\U{85}' || c == '\U{A0}' || c == '\U{1680}'
    || ('\U{2000}' <= c <= '\U{200A}')
    || c == '\U{2028}' || c == '\U{2029}' || c == '\U{202F}' || c == '\U{205F}' || c == '\U{3000}'
  }

  /** `char::to_digit(10)` succeeds exactly on these; so does `u8::is_ascii_digit`. */
  predicate IsAsciiDigit(c: char) {
    '0' <= c <= '9'
  }

  function DigitValue(c: char): (d: nat)
    requires IsAsciiDigit(c)
    ensures d < 10
  {
    c as int - '0' as int
  }

  predicate IsAsciiLetter(c: char) {
    ('a' <= c <= 'z') || ('A' <= c <= 'Z')
  }

  /** `char::is_alphanumeric`, restricted to ASCII. */
  predicate IsAlphanumeric(c: char) {
    IsAsciiDigit(c) || IsAsciiLetter(c)
  }

  function ToUpper(c: char): (u: char)
    ensures IsWhitespace(u) <==> IsWhitespace(c)
  {
    if 'a' <= c <= 'z' then (c as int - 32) as char else c
  }

  function ToLower(c: char): (l: char)
    ensures IsWhitespace(l) <==> IsWhitespace(c)
  {
    if 'A' <= c <= 'Z' then (c as int + 32) as char else c
  }

  /** `str::to_lowercase`. */
  function LowerAll(s: string): (r: string)
    ensures |r| == |s| && forall i :: 0 <= i < |s| ==> r[i] == ToLower(s[i])
  {
    seq(|s|, i requires 0 <= i < |s| => ToLower(s[i]))
  }

  predicate IsContent(c: char) {
    !IsWhitespace(c)
  }

  /** The non-whitespace characters of `s`, in order. */
  function NonWhitespace(s: string): string {
    Filter(IsContent, s)
  }

  // ---------------------------------------------------------------------
  // trim

  /** The first position at or after `i` that holds no whitespace (or |s|). */
  function SkipWhitespace(s: string, i: nat): (j: nat)
    requires i <= |s|
    ensures i <= j <= |s|
    ensures j < |s| ==> !IsWhitespace(s[j])
    ensures forall k :: i <= k < j ==> IsWhitespace(s[k])
    decreases |s| - i
  {
    if i == |s| || !IsWhitespace(s[i]) then i else SkipWhitespace(s, i + 1)
  }

  /** The end of `s[lo..j]` once its trailing whitespace is dropped. */
  function ContentEnd(s: string, lo: nat, j: nat): (e: nat)
    requires lo <= j <= |s|
    ensures lo <= e <= j
    ensures e > lo ==> !IsWhitespace(s[e - 1])
    ensures forall k :: e <= k < j ==> IsWhitespace(s[k])
    decreases j
  {
    if j == lo || !IsWhitespace(s[j - 1]) then j else ContentEnd(s, lo, j - 1)
  }

  /** `str::trim`: the longest infix with no whitespace at either end, obtained
      by dropping only whitespace. */
  function Trim(s: string): (t: string)
    ensures t == [] || (!IsWhitespace(t[0]) && !IsWhitespace(t[|t| - 1]))
  {
    var a := SkipWhitespace(s, 0);
    s[a..ContentEnd(s, a, |s|)]
  }

  /** Trim removes exactly a whitespace prefix and a whitespace suffix. */
  lemma TrimAt(s: string, a: nat, e: nat)
    requires a < e <= |s| && !IsWhitespace(s[a]) && !IsWhitespace(s[e - 1])
    requires forall k :: 0 <= k < a ==> IsWhitespace(s[k])
    requires forall k :: e <= k < |s| ==> IsWhitespace(s[k])
    ensures Trim(s) == s[a..e]
  {
    SkipWhitespaceAt(s, 0, a);
    ContentEndAt(s, a, |s|, e);
  }

  lemma {:induction false} SkipWhitespaceAt(s: string, i: nat, a: nat)
    requires i <= a < |s| && !IsWhitespace(s[a])
    requires forall k :: i <= k < a ==> IsWhitespace(s[k])
    ensures SkipWhitespace(s, i) == a
    decreases a - i
  {
    if i < a {
      SkipWhitespaceAt(s, i + 1, a);
    }
  }

  lemma {:induction false} ContentEndAt(s: string, lo: nat, j: nat, e: nat)
    requires lo < e <= j <= |s| && !IsWhitespace(s[e - 1])
    requires forall k :: e <= k < j ==> IsWhitespace(s[k])
    ensures ContentEnd(s, lo, j) == e
    decreases j
  {
    if e < j {
      ContentEndAt(s, lo, j - 1, e);
    }
  }

  lemma TrimKeepsContent(s: string)
    ensures NonWhitespace(Trim(s)) == NonWhitespace(s)
  {
    var a := SkipWhitespace(s, 0);
    var e := ContentEnd(s, a, |s|);
    SplitThree(s, a, e);
    NonWhitespaceOfBlank(s, 0, a);
    NonWhitespaceOfBlank(s, e, |s|);
    ContentBetweenBlanks(s[0..a], s[a..e], s[e..|s|]);
  }

  /** Blank text around a body adds no content. */
  lemma ContentBetweenBlanks(lead: string, body: string, tail: string)
    requires NonWhitespace(lead) == [] && NonWhitespace(tail) == []
    ensures NonWhitespace(lead + body + tail) == NonWhitespace(body)
  {
    calc {
      NonWhitespace(lead + body + tail);
      { FilterConcat(IsContent, lead + body, tail); }
      Filter(IsContent, lead + body) + Filter(IsContent, tail);
      { FilterConcat(IsContent, lead, body); }
      Filter(IsContent, lead) + Filter(IsContent, body) + Filter(IsContent, tail);
      Filter(IsContent, body);
    }
  }

  lemma SplitThree(s: string, a: nat, e: nat)
    requires a <= e <= |s|
    ensures s == s[0..a] + s[a..e] + s[e..|s|]
  {
    assert s[0..a] + s[a..e] == s[0..e];
  }

  /** A stretch of whitespace has no content. */
  lemma NonWhitespaceOfBlank(s: string, lo: nat, hi: nat)
    requires lo <= hi <= |s| && forall k :: lo <= k < hi ==> IsWhitespace(s[k])
    ensures NonWhitespace(s[lo..hi]) == []
  {
    forall i | 0 <= i < hi - lo
      ensures !IsContent(s[lo..hi][i])
    {
      assert s[lo..hi][i] == s[lo + i];
    }
    FilterNone(IsContent, s[lo..hi]);
  }

  // ---------------------------------------------------------------------
  // normalize_spaces

  /** What the loop of `normalize_spaces` emits for `t[i..]` when the
      character before position `i` was whitespace exactly if `was`:
      each whitespace run becomes a single ' ', everything else is copied. */
  function CollapseFrom(t: string, i: nat, was: bool): string
    requires i <= |t|
    decreases |t| - i
  {
    if i == |t| then []
    else if IsWhitespace(t[i]) then
      (if was then [] else [' ']) + CollapseFrom(t, i + 1, true)
    else [t[i]] + CollapseFrom(t, i + 1, false)
  }

  /** The specification of `normalize_spaces`. */
  function Normalized(s: string): string {
    CollapseFrom(Trim(s), 0, false)
  }

  /** `normalize_spaces`: trim, then collapse every whitespace run to one space. */
  method NormalizeSpaces(input: string) returns (output: string)
    ensures output == Normalized(input)
  {
    var t := Trim(input);
    output := [];
    var wasWhitespace := false;
    var i := 0;
    while i < |t|
      invariant 0 <= i <= |t|
      invariant output + CollapseFrom(t, i, wasWhitespace) == CollapseFrom(t, 0, false)
    {
      var c := t[i];
      ghost var emitted: string := if !IsWhitespace(c) then [c] else if wasWhitespace then [] else [' '];
      ghost var next := output + emitted;
      assert CollapseFrom(t, i, wasWhitespace) == emitted + CollapseFrom(t, i + 1, IsWhitespace(c));
      assert next + CollapseFrom(t, i + 1, IsWhitespace(c)) == CollapseFrom(t, 0, false);
      if IsWhitespace(c) {
        if !wasWhitespace {
          output := output + [' '];
          wasWhitespace := true;
        }
      } else {
        output := output + [c];
        wasWhitespace := false;
      }
      assert output == next && wasWhitespace == IsWhitespace(c);
      i := i + 1;
    }
  }

  /** The shape `normalize_spaces` promises: no whitespace at either end, every
      whitespace character a plain space, and never two in a row. */
  ghost predicate SingleSpaced(r: string) {
    && (r != [] ==> !IsWhitespace(r[0]) && !IsWhitespace(r[|r| - 1]))
    && (forall k :: 0 <= k < |r| && IsWhitespace(r[k]) ==> r[k] == ' ')
    && (forall k :: 0 <= k < |r| - 1 ==> !IsWhitespace(r[k]) || !IsWhitespace(r[k + 1]))
  }

  lemma {:induction false} CollapseShape(t: string, i: nat, was: bool)
    requires i <= |t|
    ensures var r := CollapseFrom(t, i, was);
      && (forall k :: 0 <= k < |r| && IsWhitespace(r[k]) ==> r[k] == ' ')
      && (forall k :: 0 <= k < |r| - 1 ==> !IsWhitespace(r[k]) || !IsWhitespace(r[k + 1]))
      && (r != [] && IsWhitespace(r[0]) ==> !was && IsWhitespace(t[i]))
      && (r == [] ==> forall k :: i <= k < |t| ==> IsWhitespace(t[k]))
      && (r != [] && IsWhitespace(r[|r| - 1]) ==> IsWhitespace(t[|t| - 1]))
    decreases |t| - i
  {
    if i < |t| {
      CollapseShape(t, i + 1, IsWhitespace(t[i]));
    }
  }

  lemma {:induction false} CollapseKeepsContent(t: string, i: nat, was: bool)
    requires i <= |t|
    ensures NonWhitespace(CollapseFrom(t, i, was)) == NonWhitespace(t[i..])
    decreases |t| - i
  {
    if i < |t| {
      var rest := CollapseFrom(t, i + 1, IsWhitespace(t[i]));
      CollapseKeepsContent(t, i + 1, IsWhitespace(t[i]));
      assert t[i..] == [t[i]] + t[i + 1..];
      FilterConcat(IsContent, [t[i]], t[i + 1..]);
      var head: string := if !IsWhitespace(t[i]) then [t[i]] else if was then [] else [' '];
      assert CollapseFrom(t, i, was) == head + rest;
      FilterConcat(IsContent, head, rest);
    }
  }

  /** normalize_spaces: its output is single-spaced and keeps every
      non-whitespace character of the input, in order. */
  lemma NormalizedShape(s: string)
    ensures SingleSpaced(Normalized(s))
    ensures NonWhitespace(Normalized(s)) == NonWhitespace(s)
  {
    var t := Trim(s);
    CollapseShape(t, 0, false);
    CollapseKeepsContent(t, 0, false);
    assert t[0..] == t;
    TrimKeepsContent(s);
  }

  /** On a string that is already single-spaced, `CollapseFrom` copies. */
  lemma {:induction false} CollapseOfSingleSpaced(t: string, i: nat, was: bool)
    requires SingleSpaced(t) && i <= |t|
    requires was <==> (i > 0 && IsWhitespace(t[i - 1]))
    ensures CollapseFrom(t, i, was) == t[i..]
    decreases |t| - i
  {
    if i < |t| {
      CollapseOfSingleSpaced(t, i + 1, IsWhitespace(t[i]));
      assert t[i..] == [t[i]] + t[i + 1..];
    }
  }

  /** normalize_spaces leaves single-spaced text alone, so it is idempotent. */
  lemma NormalizedIdempotent(s: string)
    ensures SingleSpaced(s) ==> Normalized(s) == s
    ensures Normalized(Normalized(s)) == Normalized(s)
  {
    forall u | SingleSpaced(u) ensures Normalized(u) == u {
      assert Trim(u) == u by {
        if u != [] {
          assert SkipWhitespace(u, 0) == 0;
          assert ContentEnd(u, 0, |u|) == |u|;
        }
      }
      CollapseOfSingleSpaced(u, 0, false);
    }
    NormalizedShape(s);
  }

  /** Text that is single-spaced once its whitespace ends are trimmed
      normalises to exactly that trimmed text. */
  lemma NormalizedAt(s: string, a: nat, e: nat)
    requires a < e <= |s| && !IsWhitespace(s[a]) && !IsWhitespace(s[e - 1])
    requires forall k :: 0 <= k < a ==> IsWhitespace(s[k])
    requires forall k :: e <= k < |s| ==> IsWhitespace(s[k])
    requires SingleSpaced(s[a..e])
    ensures Normalized(s) == s[a..e]
  {
    TrimAt(s, a, e);
    CollapseOfSingleSpaced(s[a..e], 0, false);
    assert s[a..e][0..] == s[a..e];
  }

  /** `CollapseFrom` reads only the suffix from its start position. */
  lemma {:induction false} CollapseSuffix(t: string, i: nat, u: string, j: nat, was: bool)
    requires i <= |t| && j <= |u| && t[i..] == u[j..]
    ensures CollapseFrom(t, i, was) == CollapseFrom(u, j, was)
    decreases |t| - i
  {
    if i < |t| {
      assert t[i] == t[i..][0] && u[j] == u[j..][0];
      assert t[i + 1..] == t[i..][1..] && u[j + 1..] == u[j..][1..];
      CollapseSuffix(t, i + 1, u, j + 1, IsWhitespace(t[i]));
    }
  }

  /** Dropping the second of two adjacent whitespace characters at or after
      position `i + 1` does not change what the collapse emits. */
  lemma {:induction false} CollapseDropSpace(t: string, i: nat, was: bool, k: nat)
    requires i < k < |t| && IsWhitespace(t[k - 1]) && IsWhitespace(t[k])
    ensures CollapseFrom(t, i, was) == CollapseFrom(t[..k] + t[k + 1..], i, was)
    decreases k - i
  {
    var u := t[..k] + t[k + 1..];
    assert |u| == |t| - 1 && u[i] == t[i];
    var head: string := if !IsWhitespace(t[i]) then [t[i]] else if was then [] else [' '];
    assert CollapseFrom(u, i, was) == head + CollapseFrom(u, i + 1, IsWhitespace(t[i]));
    assert CollapseFrom(t, i, was) == head + CollapseFrom(t, i + 1, IsWhitespace(t[i]));
    if i + 1 < k {
      CollapseDropSpace(t, i + 1, IsWhitespace(t[i]), k);
    } else {
      assert CollapseFrom(t, k, true) == CollapseFrom(t, k + 1, true);
      assert t[k + 1..] == u[k..];
      CollapseSuffix(t, k + 1, u, k, true);
    }
  }

  /** normalize_spaces: a doubled space inside a line collapses, so the line
      normalises like the one with that space removed. */
  lemma NormalizedDropSpace(s: string, k: nat)
    requires 0 < k < |s| - 1 && IsWhitespace(s[k - 1]) && IsWhitespace(s[k])
    requires !IsWhitespace(s[0]) && !IsWhitespace(s[|s| - 1])
    ensures Normalized(s) == Normalized(s[..k] + s[k + 1..])
  {
    var u := s[..k] + s[k + 1..];
    assert SkipWhitespace(s, 0) == 0 && ContentEnd(s, 0, |s|) == |s|;
    assert u[0] == s[0] && u[|u| - 1] == s[|s| - 1];
    assert SkipWhitespace(u, 0) == 0 && ContentEnd(u, 0, |u|) == |u|;
    assert Trim(s) == s && Trim(u) == u;
    CollapseDropSpace(s, 0, false, k);
  }

  // ---------------------------------------------------------------------
  // to_title_case

  /** The end of the word that starts at position `i`. */
  function WordEnd(s: string, i: nat): (e: nat)
    requires i <= |s|
    ensures i <= e <= |s|
    ensures e < |s| ==> IsWhitespace(s[e])
    ensures forall k :: i <= k < e ==> !IsWhitespace(s[k])
    decreases |s| - i
  {
    if i == |s| || IsWhitespace(s[i]) then i else WordEnd(s, i + 1)
  }

  predicate IsWord(w: string) {
    w != [] && forall k :: 0 <= k < |w| ==> !IsWhitespace(w[k])
  }

  /** `split_whitespace` applied to `s[i..]`. */
  function WordsFrom(s: string, i: nat): (ws: seq<string>)
    requires i <= |s|
    ensures forall k :: 0 <= k < |ws| ==> IsWord(ws[k])
    decreases |s| - i
  {
    if i == |s| then []
    else if IsWhitespace(s[i]) then WordsFrom(s, i + 1)
    else
      var e := WordEnd(s, i);
      [s[i..e]] + WordsFrom(s, e)
  }

  function Words(s: string): seq<string> {
    WordsFrom(s, 0)
  }

  /** `join(" ")`. */
  function Join(ws: seq<string>): string {
    if ws == [] then []
    else if |ws| == 1 then ws[0]
    else ws[0] + " " + Join(ws[1..])
  }

  /** First character upper-cased, the rest lower-cased. */
  function Capitalize(w: string): (r: string)
    ensures |r| == |w|
    ensures w != [] ==> r[0] == ToUpper(w[0])
    ensures forall k :: 1 <= k < |w| ==> r[k] == ToLower(w[k])
  {
    if w == [] then [] else [ToUpper(w[0])] + LowerAll(w[1..])
  }

  function CapitalizeAll(ws: seq<string>): (r: seq<string>)
    ensures |r| == |ws| && forall k :: 0 <= k < |ws| ==> r[k] == Capitalize(ws[k])
  {
    if ws == [] then [] else [Capitalize(ws[0])] + CapitalizeAll(ws[1..])
  }

  /** `to_title_case`. */
  function ToTitleCase(s: string): string {
    Join(CapitalizeAll(Words(s)))
  }

  lemma {:induction false} WordEndOfLower(s: string, i: nat)
    requires i <= |s|
    ensures WordEnd(LowerAll(s), i) == WordEnd(s, i)
    decreases |s| - i
  {
    if i < |s| && !IsWhitespace(s[i]) {
      WordEndOfLower(s, i + 1);
    }
  }

  lemma CapitalizeOfLower(w: string)
    ensures Capitalize(LowerAll(w)) == Capitalize(w)
  {
  }

  lemma {:induction false} WordsOfLower(s: string, i: nat)
    requires i <= |s|
    ensures CapitalizeAll(WordsFrom(LowerAll(s), i)) == CapitalizeAll(WordsFrom(s, i))
    decreases |s| - i
  {
    var l := LowerAll(s);
    if i < |s| {
      if IsWhitespace(s[i]) {
        WordsOfLower(s, i + 1);
      } else {
        var e := WordEnd(s, i);
        WordEndOfLower(s, i);
        WordsOfLower(s, e);
        assert l[i..e] == LowerAll(s[i..e]);
        CapitalizeOfLower(s[i..e]);
        CapitalizeAllCons(l[i..e], WordsFrom(l, e));
        CapitalizeAllCons(s[i..e], WordsFrom(s, e));
      }
    }
  }

  lemma CapitalizeAllCons(w: string, ws: seq<string>)
    ensures CapitalizeAll([w] + ws) == [Capitalize(w)] + CapitalizeAll(ws)
  {
    assert ([w] + ws)[1..] == ws;
  }

  /** to_title_case does not depend on the case of its input: an OCR read in
      any mixture of cases gets the same name. */
  lemma TitleCaseIgnoresCase(s: string)
    ensures ToTitleCase(LowerAll(s)) == ToTitleCase(s)
  {
    WordsOfLower(s, 0);
  }

  lemma {:induction false} TitleCaseOfWord(w: string)
    requires IsWord(w)
    ensures ToTitleCase(w) == Capitalize(w)
  {
    assert WordEnd(w, 0) == |w| by { WordEndOfWord(w, 0); }
    assert w[0..|w|] == w;
    assert WordsFrom(w, |w|) == [];
    assert WordsFrom(w, 0) == [w[0..|w|]] + WordsFrom(w, |w|);
  }

  lemma {:induction false} WordEndOfWord(w: string, i: nat)
    requires i <= |w| && forall k :: i <= k < |w| ==> !IsWhitespace(w[k])
    ensures WordEnd(w, i) == |w|
    decreases |w| - i
  {
    if i < |w| {
      WordEndOfWord(w, i + 1);
    }
  }

  /** A single word, and two words joined by one space, are single-spaced. */
  lemma TwoWordsSingleSpaced(a: string, b: string)
    requires IsWord(a) && IsWord(b)
    ensures SingleSpaced(a) && SingleSpaced(a + " " + b)
  {
    var s := a + " " + b;
    assert forall k :: 0 <= k < |a| ==> s[k] == a[k];
    assert forall k :: |a| < k < |s| ==> s[k] == b[k - |a| - 1];
  }

  /** A single-spaced text followed by one space and a word is single-spaced. */
  lemma SpacedJoin(a: string, w: string)
    requires a != [] && SingleSpaced(a) && IsWord(w)
    ensures SingleSpaced(a + " " + w)
  {
    var s := a + " " + w;
    assert forall k :: 0 <= k < |a| ==> s[k] == a[k];
    assert s[|a|] == ' ';
    assert forall k :: |a| < k < |s| ==> s[k] == w[k - |a| - 1];
  }

  /** to_title_case of two words joined by one space capitalises each. */
  lemma TitleCaseTwoWords(a: string, b: string)
    requires IsWord(a) && IsWord(b)
    ensures ToTitleCase(a + " " + b) == Capitalize(a) + " " + Capitalize(b)
  {
    var s := a + " " + b;
    assert s[..|a|] == a && s[|a| + 1..] == b;
    WordEndAt(s, 0, |a|);
    WordEndAt(s, |a| + 1, |s|);
    assert s[|a| + 1..|s|] == b;
    assert WordsFrom(s, |s|) == [];
    assert WordsFrom(s, |a| + 1) == [b];
    assert WordsFrom(s, |a|) == [b];
    assert s[0..|a|] == a;
    assert Words(s) == [a, b];
    assert CapitalizeAll([a, b]) == [Capitalize(a), Capitalize(b)] by {
      CapitalizeAllCons(a, [b]);
    }
    assert [Capitalize(a), Capitalize(b)][1..] == [Capitalize(b)];
    assert Join([Capitalize(a), Capitalize(b)]) == Capitalize(a) + " " + Join([Capitalize(b)]);
  }

  /** A word that is already capitalised (no lower-case first letter, no
      upper-case letter after it) is left alone. */
  lemma CapitalizeFixed(w: string)
    requires w != [] && !('a' <= w[0] <= 'z')
    requires forall k :: 1 <= k < |w| ==> !('A' <= w[k] <= 'Z')
    ensures Capitalize(w) == w
  {
  }

  /** Two capitalised words joined by one space are their own title case. */
  lemma TitleCaseFixed(t: string, a: string, b: string)
    requires t == a + " " + b && IsWord(a) && IsWord(b)
    requires Capitalize(a) == a && Capitalize(b) == b
    ensures ToTitleCase(t) == t
  {
    TitleCaseTwoWords(a, b);
  }

  lemma {:induction false} WordEndAt(s: string, i: nat, e: nat)
    requires i <= e <= |s| && (e == |s| || IsWhitespace(s[e]))
    requires forall k :: i <= k < e ==> !IsWhitespace(s[k])
    ensures WordEnd(s, i) == e
    decreases e - i
  {
    if i < e {
      WordEndAt(s, i + 1, e);
    }
  }

  /** The expectations of the commented-out title-case test of
      blackdesert.rs (first case). */
  lemma TitleCaseOneWord()
    ensures ToTitleCase("title") == "Title"
  {
    TitleCaseOfWord("title");
  }

  lemma ThreeWordsSplit()
    ensures Words("title Title title") == ["title", "Title", "title"]
  {
    var s := "title Title title";
    assert WordEnd(s, 12) == 17;
    assert s[12..17] == "title";
    assert WordsFrom(s, 11) == ["title"];
    assert WordEnd(s, 6) == 11;
    assert s[6..11] == "Title";
    assert WordsFrom(s, 5) == ["Title", "title"];
    assert WordEnd(s, 0) == 5;
    assert s[0..5] == "title";
  }

  lemma CapitalizeThreeWords()
    ensures CapitalizeAll(["title", "Title", "title"]) == ["Title", "Title", "Title"]
  {
    assert Capitalize("title") == "Title";
    assert Capitalize("Title") == "Title";
  }

  /** The expectations of the commented-out title-case test of
      blackdesert.rs (second case). */
  lemma TitleCaseThreeWords(s: string)
    requires s == "title Title title"
    ensures ToTitleCase(s) == "Title Title Title"
  {
    var ws := Words(s);
    assert ws == ["title", "Title", "title"] by { ThreeWordsSplit(); }
    var cs := CapitalizeAll(ws);
    assert cs == ["Title", "Title", "Title"] by { CapitalizeThreeWords(); }
    JoinThree("Title", "Title", "Title");
    assert ToTitleCase(s) == Join(cs);
  }

  lemma JoinThree(a: string, b: string, c: string)
    ensures Join([a, b, c]) == a + " " + b + " " + c
  {
    assert [a, b, c][1..] == [b, c];
    assert [b, c][1..] == [c];
    assert Join([c]) == c;
    assert Join([b, c]) == b + " " + c;
    assert Join([a, b, c]) == a + " " + (b + " " + c);
  }
}
