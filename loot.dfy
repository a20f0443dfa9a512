/** Loot records, the `Silver` money type, and the two line grammars of the
    loot engine (src/engine/blackdesert.rs): the chat-log line
    "You have obtained [Name]xN. (HH:MM)" and the drop-log line "Name x N". */
module Loot {
  import opened Wrappers
  import opened Text

  /** Rust's `u8`. */
  type u8 = x: int | 0 <= x < 256

  // ---------------------------------------------------------------------
  // Silver

  /** Integer money (a `u64` in the source, unbounded here). */
  datatype Silver = Silver(value: nat)

  /** `Silver + Silver`; `a += b` stores the same sum into `a`. */
  function Add(a: Silver, b: Silver): Silver {
    Silver(a.value + b.value)
  }

  /** `Silver * Silver`. */
  function Mul(a: Silver, b: Silver): Silver {
    Silver(a.value * b.value)
  }

  /** `u64 * Silver`. */
  function Scale(n: nat, s: Silver): Silver {
    Silver(n * s.value)
  }

  /** One detected loot event, or one ledger entry. */
  datatype LootData = LootData(id: nat, name: string, amount: nat, price: Silver, hour: u8, minute: u8)

  /** `LootData::calculate`: the worth of an entry. */
  function Calculate(d: LootData): Silver {
    Scale(d.amount, d.price)
  }

  /** `Silver` addition is an ordinary commutative monoid with `Silver(0)` as
      unit, and the `add_silver` test of blackdesert.rs (1 += 2 gives 3) holds. */
  lemma SilverAddLaws(a: Silver, b: Silver, c: Silver)
    ensures Add(a, b) == Add(b, a)
    ensures Add(Add(a, b), c) == Add(a, Add(b, c))
    ensures Add(a, Silver(0)) == a
    ensures Add(Silver(1), Silver(2)).value == 3
  {
  }

  /** Scaling by an amount agrees with `Silver * Silver` on `Silver(amount)`,
      and adding to an entry's amount adds to its worth: the ledger's running
      totals can be valued entry by entry. */
  lemma {:induction false} CalculateAdditive(d: LootData, n: nat)
    ensures Calculate(d) == Mul(Silver(d.amount), d.price)
    ensures Calculate(d.(amount := d.amount + n)) == Add(Calculate(d), Scale(n, d.price))
  {
    assert (d.amount + n) * d.price.value == d.amount * d.price.value + n * d.price.value;
  }

  /** The two detection modes (`LootDetectionMode`). */
  datatype Mode = ChatLog | DropLog

  // ---------------------------------------------------------------------
  // decimal strings

  function DigitChar(d: nat): (c: char)
    requires d < 10
    ensures IsAsciiDigit(c) && DigitValue(c) == d
  {
    ('0' as int + d) as char
  }

  /** `u64::to_string`: the decimal digits of `n`, without leading zeros. */
  function NatToString(n: nat): (s: string)
    ensures |s| >= 1
    ensures forall k :: 0 <= k < |s| ==> IsAsciiDigit(s[k])
    decreases n
  {
    if n < 10 then [DigitChar(n)] else NatToString(n / 10) + [DigitChar(n % 10)]
  }

  function Pow10(k: nat): (p: nat)
    ensures p >= 1
  {
    if k == 0 then 1 else 10 * Pow10(k - 1)
  }

  /** The value of the ASCII digits of `s[lo..hi]` read in order as one decimal
      number; every other character is skipped. */
  function DigitsValue(s: string, lo: nat, hi: nat): nat
    requires lo <= hi <= |s|
    decreases hi
  {
    if hi == lo then 0
    else if IsAsciiDigit(s[hi - 1]) then DigitsValue(s, lo, hi - 1) * 10 + DigitValue(s[hi - 1])
    else DigitsValue(s, lo, hi - 1)
  }

  /** The decimal string of `n` has `k` digits exactly when `n` lies in the
      k-digit range. */
  lemma {:induction false} NatToStringLength(n: nat)
    ensures n < Pow10(|NatToString(n)|)
    ensures |NatToString(n)| >= 2 ==> Pow10(|NatToString(n)| - 1) <= n
    decreases n
  {
    if n >= 10 {
      NatToStringLength(n / 10);
    }
  }

  /** `DigitsValue` depends only on the slice it reads. */
  lemma {:induction false} DigitsValueSlice(s: string, lo: nat, hi: nat)
    requires lo <= hi <= |s|
    ensures DigitsValue(s, lo, hi) == DigitsValue(s[lo..hi], 0, hi - lo)
    decreases hi
  {
    if hi > lo {
      DigitsValueSlice(s, lo, hi - 1);
      assert s[lo..hi][..hi - 1 - lo] == s[lo..hi - 1];
      DigitsValuePrefix(s[lo..hi], hi - 1 - lo);
    }
  }

  lemma {:induction false} DigitsValuePrefix(s: string, hi: nat)
    requires hi <= |s|
    ensures DigitsValue(s, 0, hi) == DigitsValue(s[..hi], 0, hi)
    decreases hi
  {
    if hi > 0 {
      DigitsValuePrefix(s, hi - 1);
      DigitsValuePrefix(s[..hi], hi - 1);
      assert s[..hi][..hi - 1] == s[..hi - 1];
    }
  }

  /** Reading back the decimal string of `n` gives `n`. */
  lemma {:induction false} NatToStringValue(n: nat)
    ensures DigitsValue(NatToString(n), 0, |NatToString(n)|) == n
    decreases n
  {
    if n >= 10 {
      var t := NatToString(n / 10);
      var s := NatToString(n);
      NatToStringValue(n / 10);
      assert s[..|t|] == t;
      DigitsValuePrefix(s, |t|);
    }
  }

  // ---------------------------------------------------------------------
  // is_ocr_misread and the match rule of LootDatas::diff

  /** `is_ocr_misread`: `actual` is a proper prefix of `expected`. */
  predicate IsOcrMisread(expected: string, actual: string) {
    |actual| < |expected| && actual <= expected
  }

  /** A misread amount dropped trailing digits, so it is strictly smaller than
      the amount it was read from. */
  lemma MisreadIsSmaller(expected: nat, actual: nat)
    requires IsOcrMisread(NatToString(expected), NatToString(actual))
    ensures actual < expected
  {
    NatToStringLength(expected);
    NatToStringLength(actual);
    Pow10Monotone(|NatToString(actual)|, |NatToString(expected)| - 1);
  }

  lemma {:induction false} Pow10Monotone(i: nat, j: nat)
    requires i <= j
    ensures Pow10(i) <= Pow10(j)
    decreases j
  {
    if i < j {
      Pow10Monotone(i, j - 1);
    }
  }

  /** The match rule of two events in `LootDatas::diff`: same name, hour and
      minute, and the same amount or a misread of the old amount. */
  predicate Match(prev: LootData, curr: LootData) {
    && curr.name == prev.name
    && (prev.amount == curr.amount || IsOcrMisread(NatToString(prev.amount), NatToString(curr.amount)))
    && prev.hour == curr.hour
    && prev.minute == curr.minute
  }

  /** A matching new event never claims more than the old one did. */
  lemma MatchAmount(prev: LootData, curr: LootData)
    requires Match(prev, curr)
    ensures curr.amount <= prev.amount
    ensures curr.amount == prev.amount || NatToString(curr.amount) < NatToString(prev.amount)
  {
    if prev.amount != curr.amount {
      MisreadIsSmaller(prev.amount, curr.amount);
    }
  }

  // ---------------------------------------------------------------------
  // extract_number

  /** The first position at or after `i` holding an ASCII digit (or |s|). */
  function FirstDigit(s: string, i: nat): (j: nat)
    requires i <= |s|
    ensures i <= j <= |s|
    ensures j < |s| ==> IsAsciiDigit(s[j])
    ensures forall k :: i <= k < j ==> !IsAsciiDigit(s[k])
    decreases |s| - i
  {
    if i == |s| || IsAsciiDigit(s[i]) then i else FirstDigit(s, i + 1)
  }

  /** The end of the run of ASCII digits starting at `i`. */
  function DigitRunEnd(s: string, i: nat): (j: nat)
    requires i <= |s|
    ensures i <= j <= |s|
    ensures j < |s| ==> !IsAsciiDigit(s[j])
    ensures forall k :: i <= k < j ==> IsAsciiDigit(s[k])
    decreases |s| - i
  {
    if i == |s| || !IsAsciiDigit(s[i]) then i else DigitRunEnd(s, i + 1)
  }

  /** The specification of `extract_number`: the value of the first run of
      ASCII digits, and None exactly when there is no digit at all. */
  function FirstNumber(s: string): (r: Option<nat>)
    ensures r.None? <==> forall k :: 0 <= k < |s| ==> !IsAsciiDigit(s[k])
  {
    var a := FirstDigit(s, 0);
    if a == |s| then None else Some(DigitsValue(s, a, DigitRunEnd(s, a)))
  }

  /** `extract_number`. The source walks UTF-8 bytes; every byte of a
      non-ASCII character is a non-digit, so walking characters is the same. */
  method ExtractNumber(s: string) returns (r: Option<nat>)
    ensures r == FirstNumber(s)
  {
    var num := 0;
    var found := false;
    ghost var a := FirstDigit(s, 0);
    var i := 0;
    while i < |s|
      invariant 0 <= i <= |s|
      invariant !found ==> i <= a && num == 0
      invariant found ==> a < i <= DigitRunEnd(s, a) && num == DigitsValue(s, a, i)
    {
      if IsAsciiDigit(s[i]) {
        found := true;
        num := num * 10 + DigitValue(s[i]);
      } else if found {
        break;
      }
      i := i + 1;
    }
    if found {
      r := Some(num);
    } else {
      r := None;
    }
  }

  /** `extract_number` reads back a decimal amount written between text that
      does not continue its digit run. */
  lemma ExtractNumberRoundTrip(pre: string, n: nat, post: string)
    requires forall k :: 0 <= k < |pre| ==> !IsAsciiDigit(pre[k])
    requires post == [] || !IsAsciiDigit(post[0])
    ensures FirstNumber(pre + NatToString(n) + post) == Some(n)
  {
    NatToStringValue(n);
    DigitRunBetween(pre, NatToString(n), post, n);
  }

  /** A run of digits of value `v` between text that does not continue it. */
  lemma DigitRunBetween(pre: string, ns: string, post: string, v: nat)
    requires forall k :: 0 <= k < |pre| ==> !IsAsciiDigit(pre[k])
    requires post == [] || !IsAsciiDigit(post[0])
    requires ns != [] && forall k :: 0 <= k < |ns| ==> IsAsciiDigit(ns[k])
    requires DigitsValue(ns, 0, |ns|) == v
    ensures FirstNumber(pre + ns + post) == Some(v)
  {
    var s := pre + ns + post;
    var a, b := |pre|, |pre| + |ns|;
    assert s[a..b] == ns;
    assert a < |s| && IsAsciiDigit(s[a]) by {
      assert s[a] == ns[0];
    }
    assert forall k :: 0 <= k < a ==> !IsAsciiDigit(s[k]) by {
      assert forall k :: 0 <= k < a ==> s[k] == pre[k];
    }
    FirstDigitIs(s, a);
    assert forall k :: a <= k < b ==> IsAsciiDigit(s[k]) by {
      assert forall k :: a <= k < b ==> s[k] == ns[k - a];
    }
    assert b < |s| ==> !IsAsciiDigit(s[b]) by {
      assert b < |s| ==> s[b] == post[0];
    }
    DigitRunEndIs(s, a, b);
    DigitsValueSlice(s, a, b);
    FirstNumberIs(s, a, b, v);
  }

  /** The first number of `s` is the value of the run `s[a..b]`. */
  lemma FirstNumberIs(s: string, a: nat, b: nat, v: nat)
    requires a < |s| && FirstDigit(s, 0) == a && DigitRunEnd(s, a) == b
    requires DigitsValue(s, a, b) == v
    ensures FirstNumber(s) == Some(v)
  {
  }

  /** The first digit of `s` is at `a`. */
  lemma FirstDigitIs(s: string, a: nat)
    requires a < |s| && IsAsciiDigit(s[a])
    requires forall k :: 0 <= k < a ==> !IsAsciiDigit(s[k])
    ensures FirstDigit(s, 0) == a
  {
  }

  /** The digit run starting at `a` ends at `b`. */
  lemma DigitRunEndIs(s: string, a: nat, b: nat)
    requires a <= b <= |s|
    requires forall k :: a <= k < b ==> IsAsciiDigit(s[k])
    requires b < |s| ==> !IsAsciiDigit(s[b])
    ensures DigitRunEnd(s, a) == b
  {
  }

  // ---------------------------------------------------------------------
  // parse_loot_drop_logs

  /** The separator test: the character lower-cases (and decomposes) to "x". */
  predicate IsX(c: char) {
    c == 'x' || c == 'X'
  }

  /** The scan of `parse_loot_drop_logs`: the rightmost separator among
      positions 1..i, or 0 when there is none (the scan never looks at position 0). */
  function RightmostX(s: string, i: nat): (k: nat)
    requires i < |s|
    ensures k <= i
    ensures k > 0 ==> IsX(s[k])
    ensures forall j :: k < j <= i ==> !IsX(s[j])
  {
    if i == 0 || IsX(s[i]) then i else RightmostX(s, i - 1)
  }

  /** The specification of `parse_loot_drop_logs`. */
  function ParseDropLog(data: string): (r: Option<LootData>)
    ensures r.Some? ==> r.value.amount >= 1 && r.value.id == 0 && r.value.price == Silver(0)
  {
    if data == [] then None
    else
      var k := RightmostX(data, |data| - 1);
      if k == 0 then None
      else
        match FirstNumber(data[k + 1..])
        case None => None
        case Some(n) =>
          if n == 0 then None
          else Some(LootData(0, ToTitleCase(Normalized(data[..k])), n, Silver(0), 0, 0))
  }

  /** The right-to-left scan of `parse_loot_drop_logs`. */
  method ScanForX(data: string) returns (idx: nat)
    requires data != []
    ensures idx == RightmostX(data, |data| - 1)
  {
    idx := |data| - 1;
    while idx != 0
      invariant idx < |data|
      invariant forall j :: idx < j < |data| ==> !IsX(data[j])
    {
      if IsX(data[idx]) {
        break;
      }
      idx := idx - 1;
    }
  }

  /** `parse_loot_drop_logs`. */
  method ParseLootDropLogs(data: string) returns (r: Option<LootData>)
    ensures r == ParseDropLog(data)
  {
    if data == [] {
      return None;
    }
    var idx := ScanForX(data);
    if idx == 0 {
      return None;
    }
    var rawLoot := data[..idx];
    var amountText := data[idx + 1..];
    var normalized := NormalizeSpaces(rawLoot);
    var loot := ToTitleCase(normalized);
    var amount := ExtractNumber(amountText);
    if amount.None? {
      return None;
    }
    if amount.value == 0 {
      return None;
    }
    r := Some(LootData(0, loot, amount.value, Silver(0), 0, 0));
  }

  /** The drop-log grammar in the forward direction: a line is split at its
      rightmost separator past position 0, the name is the title-cased,
      space-normalised left part and the amount the first number on the
      right. */
  lemma DropLogSplit(data: string, k: nat, n: nat)
    requires 0 < k < |data| && IsX(data[k])
    requires forall j :: k < j < |data| ==> !IsX(data[j])
    requires FirstNumber(data[k + 1..]) == Some(n) && n > 0
    ensures ParseDropLog(data) == Some(LootData(0, ToTitleCase(Normalized(data[..k])), n, Silver(0), 0, 0))
  {
  }

  /** Every way a drop-log line is rejected: the empty line, no separator past
      position 0, no digit after the separator, or an amount of 0. */
  lemma DropLogRejects(data: string)
    requires data != []
    ensures
      var k := RightmostX(data, |data| - 1);
      ParseDropLog(data) == None <==>
        || (forall j :: 0 < j < |data| ==> !IsX(data[j]))
        || FirstNumber(data[k + 1..]).None?
        || FirstNumber(data[k + 1..]) == Some(0)
  {
    var k := RightmostX(data, |data| - 1);
    if k == 0 {
      assert ParseDropLog(data) == None;
    } else {
      assert IsX(data[k]);
      var m := FirstNumber(data[k + 1..]);
      assert ParseDropLog(data) == None <==> m.None? || m == Some(0);
    }
  }

  // ---------------------------------------------------------------------
  // parse_loot, chat-log mode

  const Obtained: string := "You have obtained"

  /** The first position at or after `from` holding `c` (or |s|). */
  function FindFrom(s: string, c: char, from: nat): (k: nat)
    requires from <= |s|
    ensures from <= k <= |s|
    ensures k < |s| ==> s[k] == c
    ensures forall j :: from <= j < k ==> s[j] != c
    decreases |s| - from
  {
    if from == |s| || s[from] == c then from else FindFrom(s, c, from + 1)
  }

  /** Where the bracketed name of a space-normalised chat line starts
      (just after the first '[') and ends (the next ']', or the end). */
  function NameStart(d: string): (p: nat)
    ensures p <= |d|
  {
    var b := FindFrom(d, '[', 0);
    if b < |d| then b + 1 else |d|
  }

  function NameEnd(d: string): (q: nat)
    ensures NameStart(d) <= q <= |d|
  {
    FindFrom(d, ']', NameStart(d))
  }

  /** The specification of `parse_loot` on a space-normalised chat-log line
      `d`. After the name, every digit up to the first '(' (wherever it
      stands) belongs to the amount; the scan for the time then restarts one
      character before that '(', and reads the digits before the first
      following ':' as the hour and those between it and the next ':' as the
      minute. */
  function ChatLine(d: string): (r: Option<LootData>)
    ensures r.Some? <==> Obtained <= d && NameStart(d) < NameEnd(d)
    ensures r.Some? ==> r.value.amount >= 1 && r.value.id == 0 && r.value.price == Silver(0)
  {
    if !(Obtained <= d) then None
    else
      var p := NameStart(d);
      var q := NameEnd(d);
      if p == q then None
      else
        var i1 := if q < |d| then q + 1 else |d|;
        var n := AmountOf(d, i1);
        var i2 := TimeStart(d, i1);
        Some(LootData(0, ToTitleCase(d[p..q]), if n == 0 then 1 else n, Silver(0), HourOf(d, i2) % 256, MinuteOf(d, i2) % 256))
  }

  /** Every digit from `i1` up to the first '(', read as one number. */
  function AmountOf(d: string, i1: nat): nat
    requires i1 <= |d|
  {
    DigitsValue(d, i1, FindFrom(d, '(', i1))
  }

  /** Where the time scan starts: one character before the first '(' after
      `i1`, or the end of the line when there is none. */
  function TimeStart(d: string, i1: nat): (i2: nat)
    requires 1 <= i1 <= |d|
    ensures i2 <= |d|
  {
    var r := FindFrom(d, '(', i1);
    if r < |d| then r - 1 else |d|
  }

  /** The digits from `i2` up to the first ':'. */
  function HourOf(d: string, i2: nat): nat
    requires i2 <= |d|
  {
    DigitsValue(d, i2, FindFrom(d, ':', i2))
  }

  /** The digits between the first ':' after `i2` and the next one. */
  function MinuteOf(d: string, i2: nat): nat
    requires i2 <= |d|
  {
    var c1 := FindFrom(d, ':', i2);
    if c1 < |d| then DigitsValue(d, c1 + 1, FindFrom(d, ':', c1 + 1)) else 0
  }

  /** `parse_loot` in chat-log mode: the line is space-normalised first. */
  function ParseChatLog(data: string): Option<LootData> {
    ChatLine(Normalized(data))
  }

  /** `parse_loot` in either mode. */
  function ParseLine(mode: Mode, data: string): Option<LootData> {
    match mode
    case DropLog => ParseDropLog(data)
    case ChatLog => ParseChatLog(data)
  }

  /** The name loop of `parse_loot`: copies what follows the first '[' up to
      the next ']', and leaves the cursor just past that ']' (or at the end). */
  method ScanName(d: string) returns (itemName: string, idx: nat)
    ensures itemName == d[NameStart(d)..NameEnd(d)]
    ensures idx == if NameEnd(d) < |d| then NameEnd(d) + 1 else |d|
  {
    ghost var b := FindFrom(d, '[', 0);
    itemName := [];
    idx := 0;
    var foundName := false;
    while idx < |d|
      invariant 0 <= idx <= |d|
      invariant !foundName ==> itemName == [] && forall j :: 0 <= j < idx ==> d[j] != '['
      invariant foundName ==> b < idx && itemName == d[b + 1..idx] && forall j :: b < j < idx ==> d[j] != ']'
    {
      var c := d[idx];
      idx := idx + 1;
      if foundName {
        if c == ']' {
          break;
        }
        assert d[b + 1..idx] == d[b + 1..idx - 1] + [c];
        itemName := itemName + [c];
        continue;
      }
      if c == '[' {
        assert b == idx - 1;
        foundName := true;
      }
    }
  }

  /** The amount loop of `parse_loot`: every digit from `i1` up to the first
      '(', after which the cursor steps back one character. */
  method ScanAmount(d: string, i1: nat) returns (amount: nat, idx: nat)
    requires 1 <= i1 <= |d|
    ensures amount == DigitsValue(d, i1, FindFrom(d, '(', i1)) == AmountOf(d, i1)
    ensures idx == (if FindFrom(d, '(', i1) < |d| then FindFrom(d, '(', i1) - 1 else |d|) == TimeStart(d, i1)
  {
    amount := 0;
    idx := i1;
    while idx < |d|
      invariant i1 <= idx <= |d|
      invariant forall j :: i1 <= j < idx ==> d[j] != '('
      invariant amount == DigitsValue(d, i1, idx)
    {
      var c := d[idx];
      if c == '(' {
        idx := idx - 1;
        break;
      }
      idx := idx + 1;
      if IsAsciiDigit(c) {
        amount := amount * 10 + DigitValue(c);
      }
    }
  }

  /** The time loop of `parse_loot`: digits before the first ':' from `i2`
      make the hour, digits between it and the next ':' the minute. */
  method ScanTime(d: string, i2: nat) returns (hour: nat, minute: nat)
    requires i2 <= |d|
    ensures
      var c1 := FindFrom(d, ':', i2);
      && hour == DigitsValue(d, i2, c1) == HourOf(d, i2)
      && minute == (if c1 < |d| then DigitsValue(d, c1 + 1, FindFrom(d, ':', c1 + 1)) else 0) == MinuteOf(d, i2)
  {
    ghost var c1 := FindFrom(d, ':', i2);
    ghost var c2 := if c1 < |d| then FindFrom(d, ':', c1 + 1) else |d|;
    hour := 0;
    minute := 0;
    var findMode := 0;
    var idx := i2;
    while idx < |d|
      invariant i2 <= idx <= |d|
      invariant findMode == 0 ==> idx <= c1 && hour == DigitsValue(d, i2, idx) && minute == 0
      invariant findMode == 1 ==>
        c1 < idx <= c2 && hour == DigitsValue(d, i2, c1) && minute == DigitsValue(d, c1 + 1, idx)
      invariant findMode >= 2 ==>
        c1 < c2 < idx && hour == DigitsValue(d, i2, c1) && minute == DigitsValue(d, c1 + 1, c2)
    {
      var c := d[idx];
      idx := idx + 1;
      if c == ':' {
        findMode := findMode + 1;
        continue;
      }
      if IsAsciiDigit(c) {
        if findMode == 0 {
          hour := hour * 10 + DigitValue(c);
        } else if findMode == 1 {
          minute := minute * 10 + DigitValue(c);
        }
      }
    }
  }

  /** `parse_loot`. The hour and minute accumulate in `u32`, then are cast
      with `as u8`; both truncations keep the value modulo 256, so the stored
      fields are the true digit values modulo 256. */
  method ParseLoot(mode: Mode, data: string) returns (r: Option<LootData>)
    ensures r == ParseLine(mode, data)
  {
    if mode == DropLog {
      r := ParseLootDropLogs(data);
      return;
    }
    var d := NormalizeSpaces(data);
    r := ScanChatLine(d);
  }

  /** The chat-log branch of `parse_loot` after space normalisation. */
  method ScanChatLine(d: string) returns (r: Option<LootData>)
    ensures r == ChatLine(d)
  {
    if !(Obtained <= d) {
      return None;
    }
    var itemName, idx := ScanName(d);
    if itemName == [] {
      return None;
    }
    var name := ToTitleCase(itemName);
    var amount;
    amount, idx := ScanAmount(d, idx);
    if amount == 0 {
      amount := 1;
    }
    var hour, minute := ScanTime(d, idx);
    r := Some(LootData(0, name, amount, Silver(0), hour % 256, minute % 256));
    ChatLineFields(d);
  }

  // ---------------------------------------------------------------------
  // the chat-log line, piece by piece

  /** `FindFrom` stops at the first `c` after a stretch that holds none. */
  lemma FindFromAfter(s: string, c: char, from: nat, k: nat)
    requires from <= k <= |s|
    requires c !in s[from..k]
    requires k == |s| || s[k] == c
    ensures FindFrom(s, c, from) == k
  {
    assert forall j :: from <= j < k ==> s[j] == s[from..k][j - from];
  }

  /** Characters that are not digits contribute nothing to `DigitsValue`. */
  lemma {:induction false} DigitsValueNone(s: string, lo: nat, hi: nat)
    requires lo <= hi <= |s|
    requires forall k :: lo <= k < hi ==> !IsAsciiDigit(s[k])
    ensures DigitsValue(s, lo, hi) == 0
    decreases hi
  {
    if hi > lo {
      DigitsValueNone(s, lo, hi - 1);
    }
  }

  lemma {:induction false} DigitsValueSkip(s: string, lo: nat, m: nat, hi: nat)
    requires lo <= m <= hi <= |s|
    requires forall k :: lo <= k < m ==> !IsAsciiDigit(s[k])
    ensures DigitsValue(s, lo, hi) == DigitsValue(s, m, hi)
    decreases hi
  {
    if hi == m {
      DigitsValueNone(s, lo, m);
    } else {
      DigitsValueSkip(s, lo, m, hi - 1);
    }
  }

  /** The decimal value of the digits of `s`, read in order. */
  function Digits(s: string): nat {
    DigitsValue(s, 0, |s|)
  }

  /** Where the name of a line "You have obtained [<name>]<tail>" lies. */
  lemma ChatLineName(d: string, name: string, tail: string)
    requires d == Obtained + " [" + name + "]" + tail
    requires ']' !in name
    ensures Obtained <= d
    ensures NameStart(d) == |Obtained| + 2 && NameEnd(d) == NameStart(d) + |name|
    ensures d[NameStart(d)..NameEnd(d)] == name && d[NameEnd(d) + 1..] == tail
  {
    var p := |Obtained| + 2;
    var q := p + |name|;
    assert d[..p - 1] == Obtained + " ";
    FindFromAfter(d, '[', 0, p - 1);
    assert d[p..q] == name;
    FindFromAfter(d, ']', p, q);
    assert d[q + 1..] == tail;
  }

  /** The reading of a well-formed, space-normalised chat line
      "You have obtained [<name>]<amount>(<hour>:<minute>)": the name is
      title-cased, the amount is the value of all digits in its piece
      (1 when there are none), and hour and minute are read from their
      pieces, truncated to a byte. The piece before '(' must not end in a
      digit, since `parse_loot` re-reads that one character as part of the
      hour. */
  lemma ChatLineParts(d: string, name: string, amount: string, hour: string, minute: string)
    requires d == Obtained + " [" + name + "]" + amount + "(" + hour + ":" + minute + ")"
    requires name != [] && ']' !in name
    requires amount != [] && '(' !in amount && !IsAsciiDigit(amount[|amount| - 1])
    requires ':' !in amount && ':' !in hour && ':' !in minute
    ensures ChatLine(d) == Some(LootData(0, ToTitleCase(name),
      if Digits(amount) == 0 then 1 else Digits(amount), Silver(0), Digits(hour) % 256, Digits(minute) % 256))
  {
    ChatLinePieces(d, name, amount, hour, minute);
    ChatLineFinish(d, name, Digits(amount), Digits(hour), Digits(minute));
  }

  /** `parse_loot` reads a chat-log line of that shape that is already
      single-spaced in the same way. */
  lemma ParseChatLogParts(d: string, name: string, amount: string, hour: string, minute: string)
    requires SingleSpaced(d)
    requires d == Obtained + " [" + name + "]" + amount + "(" + hour + ":" + minute + ")"
    requires name != [] && ']' !in name
    requires amount != [] && '(' !in amount && !IsAsciiDigit(amount[|amount| - 1])
    requires ':' !in amount && ':' !in hour && ':' !in minute
    ensures ParseChatLog(d) == Some(LootData(0, ToTitleCase(name),
      if Digits(amount) == 0 then 1 else Digits(amount), Silver(0), Digits(hour) % 256, Digits(minute) % 256))
  {
    NormalizedIdempotent(d);
    ChatLineParts(d, name, amount, hour, minute);
  }

  /** `parse_loot` collapses a doubled space before reading a chat-log line:
      inserting a space after a space inside the line changes nothing. */
  lemma ParseChatLogDoubleSpace(a: string, b: string)
    requires a != [] && b != [] && !IsWhitespace(a[0]) && IsWhitespace(a[|a| - 1])
    requires !IsWhitespace(b[|b| - 1])
    ensures ParseChatLog(a + " " + b) == ParseChatLog(a + b)
  {
    var s := a + " " + b;
    assert s[0] == a[0] && s[|a| - 1] == a[|a| - 1] && s[|a|] == ' ' && s[|s| - 1] == b[|b| - 1];
    assert s[..|a|] + s[|a| + 1..] == a + b;
    NormalizedDropSpace(s, |a|);
  }

  /** Where each piece of such a line is found, and what it reads as. */
  lemma ChatLinePieces(d: string, name: string, amount: string, hour: string, minute: string)
    requires d == Obtained + " [" + name + "]" + amount + "(" + hour + ":" + minute + ")"
    requires name != [] && ']' !in name
    requires amount != [] && '(' !in amount && !IsAsciiDigit(amount[|amount| - 1])
    requires ':' !in amount && ':' !in hour && ':' !in minute
    ensures Obtained <= d && NameStart(d) < NameEnd(d) < |d| && d[NameStart(d)..NameEnd(d)] == name
    ensures AmountOf(d, NameEnd(d) + 1) == Digits(amount)
    ensures HourOf(d, TimeStart(d, NameEnd(d) + 1)) == Digits(hour)
    ensures MinuteOf(d, TimeStart(d, NameEnd(d) + 1)) == Digits(minute)
  {
    var tail := amount + ("(" + (hour + (":" + (minute + ")"))));
    assert d == Obtained + " [" + name + "]" + tail;
    ChatLineName(d, name, tail);
    ChatLineTail(d, NameEnd(d) + 1, amount, hour, minute);
  }

  /** What follows the name: "<amount>(<hour>:<minute>)" from `i1` on. */
  lemma ChatLineTail(d: string, i1: nat, amount: string, hour: string, minute: string)
    requires 1 <= i1 <= |d| && d[i1..] == amount + ("(" + (hour + (":" + (minute + ")"))))
    requires amount != [] && '(' !in amount && !IsAsciiDigit(amount[|amount| - 1])
    requires ':' !in amount && ':' !in hour && ':' !in minute
    ensures AmountOf(d, i1) == Digits(amount)
    ensures HourOf(d, TimeStart(d, i1)) == Digits(hour)
    ensures MinuteOf(d, TimeStart(d, i1)) == Digits(minute)
  {
    ChatLineAmount(d, i1, amount, "(" + (hour + (":" + (minute + ")"))));
    var i2 := TimeStart(d, i1);
    ChatLineHour(d, i2, hour, ":" + (minute + ")"));
    ChatLineMinute(d, i2, FindFrom(d, ':', i2), minute);
  }

  /** `d[i..]` split into `piece` and `rest`. */
  lemma SplitAt(d: string, i: nat, piece: string, rest: string)
    requires i <= |d| && d[i..] == piece + rest
    ensures i + |piece| <= |d| && d[i..i + |piece|] == piece && d[i + |piece|..] == rest
  {
    assert d[i..][..|piece|] == piece;
    assert d[i..][|piece|..] == rest;
  }

  /** The amount piece runs from `i1` to the first '(', and the time scan
      starts on its last character. */
  lemma ChatLineAmount(d: string, i1: nat, amount: string, rest: string)
    requires 1 <= i1 <= |d| && d[i1..] == amount + rest
    requires amount != [] && '(' !in amount && !IsAsciiDigit(amount[|amount| - 1]) && ':' !in amount
    requires rest != [] && rest[0] == '('
    ensures AmountOf(d, i1) == Digits(amount)
    ensures TimeStart(d, i1) == i1 + |amount| - 1
    ensures !IsAsciiDigit(d[TimeStart(d, i1)]) && d[TimeStart(d, i1)] != ':'
    ensures d[TimeStart(d, i1) + 1..] == rest
  {
    SplitAt(d, i1, amount, rest);
    assert d[i1..i1 + |amount|][|amount| - 1] == d[i1 + |amount| - 1];
    assert amount[|amount| - 1] in amount;
    FindFromAfter(d, '(', i1, i1 + |amount|);
    DigitsValueSlice(d, i1, i1 + |amount|);
  }

  /** The hour is read from the character before '(' up to the first ':'. */
  lemma ChatLineHour(d: string, i2: nat, hour: string, rest: string)
    requires i2 < |d| && d[i2 + 1..] == "(" + (hour + rest)
    requires !IsAsciiDigit(d[i2]) && d[i2] != ':' && ':' !in hour
    requires rest != [] && rest[0] == ':'
    ensures HourOf(d, i2) == Digits(hour)
    ensures FindFrom(d, ':', i2) == i2 + 2 + |hour| < |d|
    ensures d[i2 + 2 + |hour|..] == rest
  {
    SplitAt(d, i2 + 1, "(", hour + rest);
    SplitAt(d, i2 + 2, hour, rest);
    var c1 := i2 + 2 + |hour|;
    assert d[i2 + 1] == '(';
    assert FindFrom(d, ':', i2) == FindFrom(d, ':', i2 + 2);
    FindFromAfter(d, ':', i2 + 2, c1);
    DigitsValueSkip(d, i2, i2 + 2, c1);
    DigitsValueSlice(d, i2 + 2, c1);
    assert d[i2 + 2..c1] == hour;
    HourAt(d, i2, c1, Digits(hour));
  }

  lemma HourAt(d: string, i2: nat, c1: nat, v: nat)
    requires i2 <= c1 <= |d| && FindFrom(d, ':', i2) == c1 && DigitsValue(d, i2, c1) == v
    ensures HourOf(d, i2) == v
  {
  }

  /** The minute is read after the ':' at `c1` up to the closing ')'. */
  lemma ChatLineMinute(d: string, i2: nat, c1: nat, minute: string)
    requires i2 <= c1 < |d| && FindFrom(d, ':', i2) == c1
    requires d[c1..] == ":" + (minute + ")") && ':' !in minute
    ensures MinuteOf(d, i2) == Digits(minute)
  {
    SplitAt(d, c1, ":", minute + ")");
    SplitAt(d, c1 + 1, minute, ")");
    FindFromAfter(d, ':', c1 + 1, |d|);
    DigitsValueSlice(d, c1 + 1, |d| - 1);
  }

  /** The fields `ChatLine` reads from a line with a name. */
  lemma ChatLineFields(d: string)
    requires Obtained <= d && NameStart(d) < NameEnd(d)
    ensures var i1 := if NameEnd(d) < |d| then NameEnd(d) + 1 else |d|;
      && ChatLine(d).Some?
      && ChatLine(d).value.id == 0 && ChatLine(d).value.price == Silver(0)
      && ChatLine(d).value.name == ToTitleCase(d[NameStart(d)..NameEnd(d)])
      && ChatLine(d).value.amount == (if AmountOf(d, i1) == 0 then 1 else AmountOf(d, i1))
      && ChatLine(d).value.hour == HourOf(d, TimeStart(d, i1)) % 256
      && ChatLine(d).value.minute == MinuteOf(d, TimeStart(d, i1)) % 256
  {
  }

  lemma ChatLineFinish(d: string, name: string, amount: nat, hour: nat, minute: nat)
    requires Obtained <= d && NameStart(d) < NameEnd(d) < |d| && d[NameStart(d)..NameEnd(d)] == name
    requires AmountOf(d, NameEnd(d) + 1) == amount
    requires HourOf(d, TimeStart(d, NameEnd(d) + 1)) == hour
    requires MinuteOf(d, TimeStart(d, NameEnd(d) + 1)) == minute
    ensures ChatLine(d) == Some(LootData(0, ToTitleCase(name), if amount == 0 then 1 else amount,
      Silver(0), hour % 256, minute % 256))
  {
    ChatLineFields(d);
    assert ChatLine(d) == Some(ChatLine(d).value);
  }

  /** A chat line with no '(' at all has no time: hour and minute are 0. */
  lemma ChatLineWithoutTime(d: string, name: string, amount: string)
    requires d == Obtained + " [" + name + "]" + amount
    requires name != [] && ']' !in name && '(' !in amount
    ensures ChatLine(d) == Some(LootData(0, ToTitleCase(name),
      if Digits(amount) == 0 then 1 else Digits(amount), Silver(0), 0, 0))
  {
    ChatLineName(d, name, amount);
    var i1 := NameEnd(d) + 1;
    assert d[i1..|d|] == amount;
    FindFromAfter(d, '(', i1, |d|);
    assert FindFrom(d, ':', |d|) == |d|;
    DigitsValueSlice(d, i1, |d|);
    assert DigitsValue(d, i1, |d|) == Digits(amount);
    assert DigitsValue(d, |d|, |d|) == 0;
    ChatLineFinish(d, name, Digits(amount), 0, 0);
  }

  /** The same for a single-spaced line as `parse_loot` receives it. */
  lemma ParseChatLogWithoutTime(d: string, name: string, amount: string)
    requires SingleSpaced(d)
    requires d == Obtained + " [" + name + "]" + amount
    requires name != [] && ']' !in name && '(' !in amount
    ensures ParseChatLog(d) == Some(LootData(0, ToTitleCase(name),
      if Digits(amount) == 0 then 1 else Digits(amount), Silver(0), 0, 0))
  {
    NormalizedIdempotent(d);
    ChatLineWithoutTime(d, name, amount);
  }

  // ---------------------------------------------------------------------
  // multiple_parse_loot

  /** The parser of one mode, as a function value. */
  function Parser(mode: Mode): string -> Option<LootData> {
    match mode
    case DropLog => ParseDropLog
    case ChatLog => ParseChatLog
  }

  /** The specification of `multiple_parse_loot`: the lines that parse, each
      replaced by its parse, in order. */
  function ParseAll(mode: Mode, lines: seq<string>): seq<LootData> {
    FilterMap(Parser(mode), lines)
  }

  /** `multiple_parse_loot`. */
  method MultipleParseLoot(mode: Mode, data: seq<string>) returns (lootDatas: seq<LootData>)
    ensures lootDatas == ParseAll(mode, data)
  {
    lootDatas := [];
    for i := 0 to |data|
      invariant lootDatas == ParseAll(mode, data[..i])
    {
      assert data[..i + 1][..i] == data[..i];
      var v := ParseLoot(mode, data[i]);
      assert v == Parser(mode)(data[i]);
      if v.Some? {
        lootDatas := lootDatas + [v.value];
      }
    }
    assert data[..|data|] == data;
  }

  /** What `multiple_parse_loot` returns: at most one event per line, each
      the parse of some line, batches parse part by part, and nothing comes
      out exactly when no line parses. */
  lemma ParseAllProperties(mode: Mode, lines: seq<string>, more: seq<string>)
    ensures |ParseAll(mode, lines)| <= |lines|
    ensures forall k :: 0 <= k < |ParseAll(mode, lines)| ==>
      exists j :: 0 <= j < |lines| && ParseLine(mode, lines[j]) == Some(ParseAll(mode, lines)[k])
    ensures ParseAll(mode, lines + more) == ParseAll(mode, lines) + ParseAll(mode, more)
    ensures ParseAll(mode, lines) == [] <==> forall j :: 0 <= j < |lines| ==> ParseLine(mode, lines[j]).None?
  {
    FilterMapSound(Parser(mode), lines);
    FilterMapConcat(Parser(mode), lines, more);
    FilterMapEmpty(Parser(mode), lines);
  }
}
