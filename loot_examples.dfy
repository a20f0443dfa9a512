/** The expectations of the parser tests of src/engine/blackdesert.rs, proved
    about the model. Those tests are commented out there (the `tests` and
    `parse_test` modules); their expected values are still what the parsers
    are written to produce. */
module LootExamples {
  import opened Wrappers
  import opened Text
  import opened Loot

  lemma SilverIsAWord(w: string)
    requires w == "Silver"
    ensures Normalized(w) == w && ToTitleCase(w) == w
  {
    assert IsWord(w);
    CapitalizeFixed(w);
    TwoWordsSingleSpaced(w, w);
    NormalizedIdempotent(w);
    TitleCaseOfWord(w);
  }

  lemma Hundred(s: string)
    requires s == "100"
    ensures FirstNumber(s) == Some(100)
  {
    assert NatToString(100) == "100";
    ExtractNumberRoundTrip("", 100, "");
    assert s == "" + NatToString(100) + "";
  }

  /** "Silverx100" gives Silver, 100. */
  lemma DropLogSilver(data: string)
    requires data == "Silverx100"
    ensures ParseDropLog(data) == Some(LootData(0, "Silver", 100, Silver(0), 0, 0))
  {
    assert IsX(data[6]) && forall j :: 6 < j < |data| ==> !IsX(data[j]);
    assert data[..6] == "Silver";
    assert data[7..] == "100";
    Hundred(data[7..]);
    SilverIsAWord(data[..6]);
    DropLogSplit(data, 6, 100);
  }

  lemma TrimTrailingSpace(raw: string, w: string)
    requires raw == "silver " && w == "silver"
    ensures Normalized(raw) == Normalized(w)
  {
    assert !IsWhitespace(raw[0]) && !IsWhitespace(raw[5]) && IsWhitespace(raw[6]);
    assert raw[0..6] == w;
    assert !IsWhitespace(w[0]) && !IsWhitespace(w[5]);
    assert w[0..6] == w;
    TrimAt(raw, 0, 6);
    TrimAt(w, 0, 6);
    assert Trim(raw) == Trim(w);
  }

  lemma LowerSilverWord(w: string)
    requires w == "silver"
    ensures Normalized(w) == w && ToTitleCase(w) == "Silver"
  {
    assert IsWord(w);
    assert Capitalize(w) == "Silver";
    TwoWordsSingleSpaced(w, w);
    NormalizedIdempotent(w);
    TitleCaseOfWord(w);
  }

  lemma LowerSilverName(raw: string)
    requires raw == "silver "
    ensures ToTitleCase(Normalized(raw)) == "Silver"
  {
    TrimTrailingSpace(raw, "silver");
    LowerSilverWord("silver");
  }

  /** "silver x100" gives Silver, 100. */
  lemma DropLogLowerSilver(data: string)
    requires data == "silver x100"
    ensures ParseDropLog(data) == Some(LootData(0, "Silver", 100, Silver(0), 0, 0))
  {
    Hundred(data[8..]);
    LowerSilverName(data[..7]);
    DropLogSplit(data, 7, 100);
  }

  lemma TrimSwampLeaves(raw: string, t: string)
    requires raw == " Swamp Leaves " && t == "Swamp Leaves"
    ensures Normalized(raw) == t
  {
    assert t == "Swamp" + " " + "Leaves";
    assert IsWord("Swamp") && IsWord("Leaves");
    assert IsWhitespace(raw[0]) && IsWhitespace(raw[13]);
    assert !IsWhitespace(raw[1]) && !IsWhitespace(raw[12]);
    assert raw[1..13] == t;
    TwoWordsSingleSpaced("Swamp", "Leaves");
    NormalizedAt(raw, 1, 13);
  }

  lemma TitleSwampLeaves(t: string)
    requires t == "Swamp Leaves"
    ensures ToTitleCase(t) == t
  {
    var a, b := t[..5], t[6..];
    assert t == a + " " + b;
    assert IsWord(a) && IsWord(b);
    CapitalizeFixed(a);
    CapitalizeFixed(b);
    TitleCaseFixed(t, a, b);
  }

  lemma SpaceOne(s: string)
    requires s == " 1"
    ensures FirstNumber(s) == Some(1)
  {
    assert NatToString(1) == "1";
    ExtractNumberRoundTrip(" ", 1, "");
    assert s == " " + NatToString(1) + "";
  }

  /** " Swamp Leaves x 1" gives Swamp Leaves, 1. */
  lemma DropLogSwampLeaves(data: string)
    requires data == " Swamp Leaves x 1"
    ensures ParseDropLog(data) == Some(LootData(0, "Swamp Leaves", 1, Silver(0), 0, 0))
  {
    assert IsX(data[14]);
    assert !IsX(data[15]) && !IsX(data[16]);
    assert forall j :: 14 < j < |data| ==> !IsX(data[j]);
    SpaceOne(data[15..]);
    TrimSwampLeaves(data[..14], "Swamp Leaves");
    TitleSwampLeaves("Swamp Leaves");
    DropLogSplit(data, 14, 1);
  }

  lemma YouHaveSpaced(s: string)
    requires s == "You have"
    ensures SingleSpaced(s) && s != []
  {
    assert IsWord("You") && IsWord("have");
    TwoWordsSingleSpaced("You", "have");
    assert "You" + " " + "have" == s;
  }

  lemma ObtainedSpaced(s: string)
    requires s == "You have obtained"
    ensures SingleSpaced(s) && s != []
  {
    YouHaveSpaced("You have");
    assert IsWord("obtained");
    SpacedJoin("You have", "obtained");
    assert "You have" + " " + "obtained" == s;
  }

  lemma ObtainedBlackSpaced(s: string)
    requires s == "You have obtained [Black"
    ensures SingleSpaced(s) && s != []
  {
    ObtainedSpaced("You have obtained");
    assert IsWord("[Black");
    SpacedJoin("You have obtained", "[Black");
    assert "You have obtained" + " " + "[Black" == s;
  }

  lemma BlackStoneAmountSpaced(s: string)
    requires s == "You have obtained [Black Stone]x7."
    ensures SingleSpaced(s) && s != []
  {
    ObtainedBlackSpaced("You have obtained [Black");
    assert IsWord("Stone]x7.");
    SpacedJoin("You have obtained [Black", "Stone]x7.");
    assert "You have obtained [Black" + " " + "Stone]x7." == s;
  }

  /** The chat-log line of the tests of blackdesert.rs is already single-spaced. */
  lemma BlackStoneSpaced(s: string)
    requires s == "You have obtained [Black Stone]x7. (16:08)"
    ensures SingleSpaced(s)
  {
    BlackStoneAmountSpaced("You have obtained [Black Stone]x7.");
    assert IsWord("(16:08)");
    SpacedJoin("You have obtained [Black Stone]x7.", "(16:08)");
    assert "You have obtained [Black Stone]x7." + " " + "(16:08)" == s;
  }

  lemma BlackStoneShape(s: string, name: string, amount: string, hour: string, minute: string)
    requires s == "You have obtained [Black Stone]x7. (16:08)"
    requires name == "Black Stone" && amount == "x7. " && hour == "16" && minute == "08"
    ensures s == Obtained + " [" + name + "]" + amount + "(" + hour + ":" + minute + ")"
  {
    assert Obtained + " [" + "Black Stone" + "]" + "x7. " + "(" + "16" + ":" + "08" + ")" == s;
  }

  lemma AmountSeven(a: string)
    requires a == "x7. "
    ensures Digits(a) == 7 && !IsAsciiDigit(a[3]) && '(' !in a && ':' !in a
  {
    assert DigitsValue(a, 0, 1) == 0;
    assert DigitsValue(a, 0, 2) == 7;
    assert DigitsValue(a, 0, 3) == 7;
  }

  lemma TwoDigits(h: string, n: nat)
    requires |h| == 2 && IsAsciiDigit(h[0]) && IsAsciiDigit(h[1])
    requires n == DigitValue(h[0]) * 10 + DigitValue(h[1])
    ensures Digits(h) == n && Digits(h) % 256 == n && ':' !in h
  {
    assert DigitsValue(h, 0, 1) == DigitValue(h[0]);
  }

  lemma TitleBlackStone(t: string)
    requires t == "Black Stone"
    ensures ToTitleCase(t) == t
  {
    var a, b := t[..5], t[6..];
    assert t == a + " " + b;
    assert IsWord(a) && IsWord(b);
    CapitalizeFixed(a);
    CapitalizeFixed(b);
    TitleCaseFixed(t, a, b);
  }

  lemma NoCloseBracket(t: string)
    requires t == "Black Stone"
    ensures t != [] && ']' !in t
  {
    assert forall k :: 0 <= k < |t| ==> t[k] != ']';
  }

  /** A single-spaced chat-log line built from pieces the parser accepts. */
  lemma ChatLogFrom(s: string, name: string, amount: string, hour: string, minute: string, e: LootData)
    requires SingleSpaced(s)
    requires s == Obtained + " [" + name + "]" + amount + "(" + hour + ":" + minute + ")"
    requires name != [] && ']' !in name
    requires amount != [] && '(' !in amount && !IsAsciiDigit(amount[|amount| - 1])
    requires ':' !in amount && ':' !in hour && ':' !in minute
    requires e.id == 0 && e.price == Silver(0) && e.name == ToTitleCase(name)
    requires e.amount == (if Digits(amount) == 0 then 1 else Digits(amount))
    requires e.hour == Digits(hour) % 256 && e.minute == Digits(minute) % 256
    ensures ParseChatLog(s) == Some(e)
  {
    ParseChatLogParts(s, name, amount, hour, minute);
  }

  /** "You have obtained [Black Stone]x7. (16:08)" gives Black Stone, 7, at
      16:08. */
  lemma ChatLogBlackStone(s: string)
    requires s == "You have obtained [Black Stone]x7. (16:08)"
    ensures ParseChatLog(s) == Some(LootData(0, "Black Stone", 7, Silver(0), 16, 8))
  {
    var name, amount, hour, minute := "Black Stone", "x7. ", "16", "08";
    BlackStoneShape(s, name, amount, hour, minute);
    BlackStoneSpaced(s);
    AmountSeven(amount);
    TwoDigits(hour, 16);
    TwoDigits(minute, 8);
    TitleBlackStone(name);
    NoCloseBracket(name);
    ChatLogFrom(s, name, amount, hour, minute, LootData(0, "Black Stone", 7, Silver(0), 16, 8));
  }

  lemma ObtainedPrefix(a: string)
    requires a == "You have obtained "
    ensures a != [] && !IsWhitespace(a[0]) && IsWhitespace(a[|a| - 1])
  {
  }

  lemma ClosedTail(b: string)
    requires |b| > 0 && (b[|b| - 1] == ')' || b[|b| - 1] == '.')
    ensures b != [] && !IsWhitespace(b[|b| - 1])
  {
  }

  lemma DoubledPieces(s: string, a: string, b: string)
    requires a == "You have obtained " && |b| > 0
    requires s == "You have obtained  " + b
    ensures s == a + " " + b
  {
    assert "You have obtained  " == a + " ";
  }

  lemma SinglePieces(t: string, a: string, b: string)
    requires a == "You have obtained " && |b| > 0
    requires t == "You have obtained " + b
    ensures t == a + b
  {
  }

  lemma BlackStoneDoubled(s: string, b: string)
    requires s == "You have obtained  [Black Stone]x7. (16:08)" && b == "[Black Stone]x7. (16:08)"
    ensures s == "You have obtained  " + b && |b| > 0 && b[|b| - 1] == ')'
  {
  }

  lemma BlackStoneSingle(t: string, b: string)
    requires t == "You have obtained [Black Stone]x7. (16:08)" && b == "[Black Stone]x7. (16:08)"
    ensures t == "You have obtained " + b
  {
  }

  /** "You have obtained  [Black Stone]x7. (16:08)", with a doubled space,
      gives Black Stone, 7, at 16:08. */
  lemma ChatLogMultipleSpaces(s: string)
    requires s == "You have obtained  [Black Stone]x7. (16:08)"
    ensures ParseChatLog(s) == Some(LootData(0, "Black Stone", 7, Silver(0), 16, 8))
  {
    var t, a, b := "You have obtained [Black Stone]x7. (16:08)", "You have obtained ", "[Black Stone]x7. (16:08)";
    BlackStoneDoubled(s, b);
    BlackStoneSingle(t, b);
    DoubledPieces(s, a, b);
    SinglePieces(t, a, b);
    ObtainedPrefix(a);
    ClosedTail(b);
    ParseChatLogDoubleSpace(a, b);
    ChatLogBlackStone(t);
  }

  lemma NoAmountSpaced(t: string)
    requires t == "You have obtained [Black Stone].(16:08)"
    ensures SingleSpaced(t)
  {
    ObtainedBlackSpaced("You have obtained [Black");
    assert IsWord("Stone].(16:08)");
    SpacedJoin("You have obtained [Black", "Stone].(16:08)");
    assert "You have obtained [Black" + " " + "Stone].(16:08)" == t;
  }

  lemma NoAmountShape(t: string, name: string, amount: string, hour: string, minute: string)
    requires t == "You have obtained [Black Stone].(16:08)"
    requires name == "Black Stone" && amount == "." && hour == "16" && minute == "08"
    ensures t == Obtained + " [" + name + "]" + amount + "(" + hour + ":" + minute + ")"
  {
    assert Obtained + " [" + "Black Stone" + "]" + "." + "(" + "16" + ":" + "08" + ")" == t;
  }

  lemma AmountDot(a: string)
    requires a == "."
    ensures Digits(a) == 0 && a != [] && !IsAsciiDigit(a[|a| - 1]) && '(' !in a && ':' !in a
  {
    assert DigitsValue(a, 0, 1) == 0;
  }

  /** "You have obtained [Black Stone].(16:08)": no amount means one. */
  lemma ChatLogNoAmountSpaced(t: string)
    requires t == "You have obtained [Black Stone].(16:08)"
    ensures ParseChatLog(t) == Some(LootData(0, "Black Stone", 1, Silver(0), 16, 8))
  {
    var name, amount, hour, minute := "Black Stone", ".", "16", "08";
    NoAmountShape(t, name, amount, hour, minute);
    NoAmountSpaced(t);
    AmountDot(amount);
    TwoDigits(hour, 16);
    TwoDigits(minute, 8);
    TitleBlackStone(name);
    NoCloseBracket(name);
    ChatLogFrom(t, name, amount, hour, minute, LootData(0, "Black Stone", 1, Silver(0), 16, 8));
  }

  lemma NoAmountDoubled(s: string, b: string)
    requires s == "You have obtained  [Black Stone].(16:08)" && b == "[Black Stone].(16:08)"
    ensures s == "You have obtained  " + b && |b| > 0 && b[|b| - 1] == ')'
  {
  }

  lemma NoAmountSingle(t: string, b: string)
    requires t == "You have obtained [Black Stone].(16:08)" && b == "[Black Stone].(16:08)"
    ensures t == "You have obtained " + b
  {
  }

  /** "You have obtained  [Black Stone].(16:08)" gives Black Stone, amount 1,
      at 16:08. */
  lemma ChatLogNoAmount(s: string)
    requires s == "You have obtained  [Black Stone].(16:08)"
    ensures ParseChatLog(s) == Some(LootData(0, "Black Stone", 1, Silver(0), 16, 8))
  {
    var t, a, b := "You have obtained [Black Stone].(16:08)", "You have obtained ", "[Black Stone].(16:08)";
    NoAmountDoubled(s, b);
    NoAmountSingle(t, b);
    DoubledPieces(s, a, b);
    SinglePieces(t, a, b);
    ObtainedPrefix(a);
    ClosedTail(b);
    ParseChatLogDoubleSpace(a, b);
    ChatLogNoAmountSpaced(t);
  }

  lemma NoTimeShape(t: string, name: string, amount: string)
    requires t == "You have obtained [Black Stone]x7."
    requires name == "Black Stone" && amount == "x7."
    ensures t == Obtained + " [" + name + "]" + amount
  {
    assert Obtained + " [" + "Black Stone" + "]" + "x7." == t;
  }

  lemma AmountSevenNoTime(a: string)
    requires a == "x7."
    ensures Digits(a) == 7 && '(' !in a
  {
    assert DigitsValue(a, 0, 1) == 0;
    assert DigitsValue(a, 0, 2) == 7;
  }

  /** A single-spaced chat-log line without a time, built from pieces the
      parser accepts. */
  lemma ChatLogNoTimeFrom(t: string, name: string, amount: string, e: LootData)
    requires SingleSpaced(t)
    requires t == Obtained + " [" + name + "]" + amount
    requires name != [] && ']' !in name && '(' !in amount
    requires e.id == 0 && e.price == Silver(0) && e.name == ToTitleCase(name)
    requires e.amount == (if Digits(amount) == 0 then 1 else Digits(amount))
    requires e.hour == 0 && e.minute == 0
    ensures ParseChatLog(t) == Some(e)
  {
    ParseChatLogWithoutTime(t, name, amount);
  }

  /** "You have obtained [Black Stone]x7." gives Black Stone, 7, at 00:00. */
  lemma ChatLogNoTimeSpaced(t: string)
    requires t == "You have obtained [Black Stone]x7."
    ensures ParseChatLog(t) == Some(LootData(0, "Black Stone", 7, Silver(0), 0, 0))
  {
    var name, amount := "Black Stone", "x7.";
    NoTimeShape(t, name, amount);
    BlackStoneAmountSpaced(t);
    AmountSevenNoTime(amount);
    TitleBlackStone(name);
    NoCloseBracket(name);
    ChatLogNoTimeFrom(t, name, amount, LootData(0, "Black Stone", 7, Silver(0), 0, 0));
  }

  lemma NoTimeDoubled(s: string, b: string)
    requires s == "You have obtained  [Black Stone]x7." && b == "[Black Stone]x7."
    ensures s == "You have obtained  " + b && |b| > 0 && b[|b| - 1] == '.'
  {
  }

  lemma NoTimeSingle(t: string, b: string)
    requires t == "You have obtained [Black Stone]x7." && b == "[Black Stone]x7."
    ensures t == "You have obtained " + b
  {
  }

  /** "You have obtained  [Black Stone]x7." gives Black Stone, 7, with no
      time (00:00). */
  lemma ChatLogNoTime(s: string)
    requires s == "You have obtained  [Black Stone]x7."
    ensures ParseChatLog(s) == Some(LootData(0, "Black Stone", 7, Silver(0), 0, 0))
  {
    var t, a, b := "You have obtained [Black Stone]x7.", "You have obtained ", "[Black Stone]x7.";
    NoTimeDoubled(s, b);
    NoTimeSingle(t, b);
    DoubledPieces(s, a, b);
    SinglePieces(t, a, b);
    ObtainedPrefix(a);
    ClosedTail(b);
    ParseChatLogDoubleSpace(a, b);
    ChatLogNoTimeSpaced(t);
  }
}
