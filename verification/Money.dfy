/**
 Money is an int64 count of paise.  This module models its printer (Indian digit
 grouping) and its parser, with Go's wrap-around arithmetic written out, and proves
 that the parser undoes the printer on every int64 value.
 */
module Money {
  import opened Wrappers

  const MIN_INT64: int := -0x8000_0000_0000_0000
  const MAX_INT64: int := 0x7FFF_FFFF_FFFF_FFFF
  const TWO_TO_64: int := 0x1_0000_0000_0000_0000
  const PAISE_PER_RUPEE := 100

  type Int64 = x: int | MIN_INT64 <= x <= MAX_INT64

  /** Two's-complement wrap-around of an exact result into int64. */
  function Wrap64(x: int): (r: Int64)
    ensures MIN_INT64 <= x <= MAX_INT64 ==> r == x
  {
    (x - MIN_INT64) % TWO_TO_64 + MIN_INT64
  }

  // ----- decimal digits -----

  predicate IsDigit(c: char) {
    '0' <= c <= '9'
  }

  predicate AllDigits(s: string) {
    forall i :: 0 <= i < |s| ==> IsDigit(s[i])
  }

  function DigitOf(d: nat): (c: char)
    requires d < 10
    ensures IsDigit(c)
  {
    ('0' as int + d) as char
  }

  function DigitValue(c: char): (d: nat)
    requires IsDigit(c)
    ensures d < 10
  {
    c as int - '0' as int
  }

  function Decimal(n: nat): (s: string)
    ensures s != "" && AllDigits(s)
  {
    if n < 10 then [DigitOf(n)] else Decimal(n / 10) + [DigitOf(n % 10)]
  }

  function Value(s: string): nat
    requires AllDigits(s)
  {
    if s == "" then 0 else Value(s[..|s| - 1]) * 10 + DigitValue(s[|s| - 1])
  }

  lemma {:induction false} DecimalRoundTrip(n: nat)
    ensures Value(Decimal(n)) == n
  {
    if n < 10 {
      assert Decimal(n)[..0] == "";
    } else {
      DecimalRoundTrip(n / 10);
      assert Decimal(n)[..|Decimal(n)| - 1] == Decimal(n / 10);
    }
  }

  /** The "%02d" rendering of a paise remainder. */
  function TwoDigits(n: nat): (s: string)
    requires n < 100
    ensures |s| == 2 && AllDigits(s)
  {
    [DigitOf(n / 10), DigitOf(n % 10)]
  }

  lemma TwoDigitsRoundTrip(n: nat)
    requires n < 100
    ensures Value(TwoDigits(n)) == n
  {
    var s := TwoDigits(n);
    assert s[..1] == [s[0]] && s[..1][..0] == "";
    assert Value(s[..1]) == n / 10;
  }

  // ----- printing -----

  /** Groups of two, cut from the right-hand end: what stands before the last three digits. */
  function Pairs(head: string): string {
    if |head| <= 2 then head else Pairs(head[..|head| - 2]) + "," + head[|head| - 2..]
  }

  /** The lakh/crore grouping of a digit string. */
  function Grouped(digits: string): string {
    if |digits| <= 3 then digits
    else Pairs(digits[..|digits| - 3]) + "," + digits[|digits| - 3..]
  }

  /** What the separator loop has written after the first n characters of the head. */
  function Written(head: string, n: nat): string
    requires n <= |head|
  {
    if n == 0 then ""
    else Written(head, n - 1)
         + (if n - 1 > 0 && (|head| - (n - 1)) % 2 == 0 then "," else "")
         + [head[n - 1]]
  }

  /** A head two characters shorter puts its separators at the same places. */
  lemma {:induction false} WrittenPrefix(head: string, n: nat)
    requires 2 <= |head| && n <= |head| - 2
    ensures Written(head, n) == Written(head[..|head| - 2], n)
  {
    if n == 0 {
    } else {
      WrittenPrefix(head, n - 1);
    }
  }

  /** The last two characters go out behind one separator, if anything stands before them. */
  lemma {:induction false} WrittenPair(head: string)
    requires |head| >= 2
    ensures Written(head, |head|)
         == Written(head, |head| - 2) + (if |head| > 2 then "," else "") + head[|head| - 2..]
  {
    var n := |head|;
    assert head[n - 2..] == [head[n - 2]] + [head[n - 1]];
    assert Written(head, n) == Written(head, n - 1) + "" + [head[n - 1]];
    assert Written(head, n - 1) == Written(head, n - 2) + (if n > 2 then "," else "") + [head[n - 2]];
  }

  lemma {:induction false} WrittenIsPairs(head: string)
    ensures Written(head, |head|) == Pairs(head)
  {
    if |head| == 1 {
      assert Written(head, 1) == Written(head, 0) + "" + [head[0]];
    } else if |head| >= 2 {
      WrittenPair(head);
      WrittenPrefix(head, |head| - 2);
      WrittenIsPairs(head[..|head| - 2]);
    }
  }

  method GroupIndian(digits: string) returns (grouped: string)
    ensures grouped == Grouped(digits)
  {
    if |digits| <= 3 {
      return digits;
    }
    var head, tail := digits[..|digits| - 3], digits[|digits| - 3..];
    var builder := "";
    var index := 0;
    while index < |head|
      invariant 0 <= index <= |head|
      invariant builder == Written(head, index)
    {
      if index > 0 && (|head| - index) % 2 == 0 {
        builder := builder + ",";
      }
      builder := builder + [head[index]];
      index := index + 1;
    }
    WrittenIsPairs(head);
    grouped := builder + "," + tail;
  }

  function Magnitude(m: Int64): nat {
    if m < 0 then 0 - m else m
  }

  /** The rendering as one formula: sign, symbol, grouped rupees, two paise digits. */
  function Formatted(m: Int64, symbol: string): string {
    var magnitude := Magnitude(m);
    (if m < 0 then "-" else "") + symbol
    + Grouped(Decimal(magnitude / PAISE_PER_RUPEE)) + "."
    + TwoDigits(magnitude % PAISE_PER_RUPEE)
  }

  lemma DecimalExtend(n: nat, d: nat, s: string)
    requires n > 0 && d < 10 && Decimal(n) == s
    ensures Decimal(10 * n + d) == s + [DigitOf(d)]
  {
  }

  lemma DecimalExtend4(n: nat, a: nat, b: nat, c: nat, d: nat, s: string)
    requires n > 0 && a < 10 && b < 10 && c < 10 && d < 10 && Decimal(n) == s
    ensures Decimal(10_000 * n + 1_000 * a + 100 * b + 10 * c + d)
         == s + [DigitOf(a), DigitOf(b), DigitOf(c), DigitOf(d)]
  {
    DecimalExtend(n, a, s);
    DecimalExtend(10 * n + a, b, s + [DigitOf(a)]);
    DecimalExtend(100 * n + 10 * a + b, c, s + [DigitOf(a)] + [DigitOf(b)]);
    DecimalExtend(1_000 * n + 100 * a + 10 * b + c, d, s + [DigitOf(a)] + [DigitOf(b)] + [DigitOf(c)]);
  }

  /** The magnitude of MinInt64, one more than int64 can hold, in digits. */
  lemma LeastDigits()
    ensures Decimal(Magnitude(MIN_INT64) / PAISE_PER_RUPEE) == "92233720368547758"
    ensures TwoDigits(Magnitude(MIN_INT64) % PAISE_PER_RUPEE) == "08"
  {
    DecimalExtend4(9, 2, 2, 3, 3, "9");
    DecimalExtend4(92233, 7, 2, 0, 3, "92233");
    DecimalExtend4(922337203, 6, 8, 5, 4, "922337203");
    DecimalExtend4(9223372036854, 7, 7, 5, 8, "9223372036854");
  }

  method Format(m: Int64, symbol: string) returns (text: string)
    ensures text == Formatted(m, symbol)
  {
    var sign := "";
    var value: Int64 := m;
    if value < 0 {
      sign := "-";
      if value == MIN_INT64 {
        // The magnitude does not fit in int64, so its digits are spelled out.
        var least := GroupIndian("92233720368547758");
        LeastDigits();
        assert ".08" == "." + "08";
        assert sign + symbol + least + ".08" == sign + symbol + least + "." + "08";
        return sign + symbol + least + ".08";
      }
      value := -value;
    }
    var whole, fraction := value / PAISE_PER_RUPEE, value % PAISE_PER_RUPEE;
    var grouped := GroupIndian(Decimal(whole));
    text := sign + symbol + grouped + "." + TwoDigits(fraction);
  }

  // ----- the shape of the grouping -----

  predicate Clear(s: string) {
    forall i :: 0 <= i < |s| ==> s[i] != ','
  }

  /** The comma-separated groups of a text. */
  function Groups(s: string): (groups: seq<string>)
    ensures |groups| >= 1
  {
    if s == "" then [""]
    else
      var rest := Groups(s[..|s| - 1]);
      if s[|s| - 1] == ',' then rest + [""]
      else rest[..|rest| - 1] + [rest[|rest| - 1] + [s[|s| - 1]]]
  }

  function Joined(groups: seq<string>): string {
    if groups == [] then "" else Joined(groups[..|groups| - 1]) + groups[|groups| - 1]
  }

  lemma {:induction false} GroupsOfClear(s: string)
    requires Clear(s)
    ensures Groups(s) == [s]
  {
    if s == "" {
    } else {
      GroupsOfClear(s[..|s| - 1]);
      assert s[..|s| - 1] + [s[|s| - 1]] == s;
    }
  }

  lemma {:induction false} GroupsAppend(a: string, b: string)
    requires Clear(b)
    ensures Groups(a + "," + b) == Groups(a) + [b]
  {
    var s := a + "," + b;
    if b == "" {
      assert s[..|s| - 1] == a;
    } else {
      var front := b[..|b| - 1];
      GroupsAppend(a, front);
      assert s[..|s| - 1] == a + "," + front;
      assert front + [b[|b| - 1]] == b;
      assert (Groups(a) + [front])[..|Groups(a)|] == Groups(a);
    }
  }

  lemma JoinedAppend(groups: seq<string>, last: string)
    ensures Joined(groups + [last]) == Joined(groups) + last
  {
    assert (groups + [last])[..|groups|] == groups;
  }

  /** One or two characters first, pairs after, spelling out the text between the commas. */
  ghost predicate Paired(groups: seq<string>, text: string) {
    && groups != [] && 1 <= |groups[0]| <= 2
    && (forall i :: 1 <= i < |groups| ==> |groups[i]| == 2)
    && Joined(groups) == text
  }

  lemma PairedAppend(groups: seq<string>, text: string, last: string)
    requires Paired(groups, text) && |last| == 2
    ensures Paired(groups + [last], text + last)
  {
    JoinedAppend(groups, last);
  }

  lemma {:induction false} PairsShape(head: string)
    requires Clear(head) && head != ""
    ensures Paired(Groups(Pairs(head)), head)
  {
    if |head| <= 2 {
      GroupsOfClear(head);
      JoinedAppend([], head);
      assert [head] == [] + [head];
    } else {
      var front, last := head[..|head| - 2], head[|head| - 2..];
      PairsShape(front);
      GroupsAppend(Pairs(front), last);
      PairedAppend(Groups(Pairs(front)), front, last);
      assert head == front + last;
    }
  }

  lemma LastGroup(g: seq<string>, head: string, tail: string)
    requires Paired(g, head)
    ensures (g + [tail])[..|g|] == g && Joined(g + [tail]) == head + tail
  {
    JoinedAppend(g, tail);
  }

  lemma GroupsOfGrouped(head: string, tail: string)
    requires Clear(head) && Clear(tail) && head != "" && |tail| == 3
    ensures Groups(Grouped(head + tail)) == Groups(Pairs(head)) + [tail]
  {
    GroupsAppend(Pairs(head), tail);
    assert (head + tail)[..|head|] == head && (head + tail)[|head|..] == tail;
  }

  /** Above three digits: pairs with one or two digits first, then a final group of three; no digit lost or moved. */
  lemma GroupingShape(digits: string)
    requires Clear(digits) && |digits| > 3
    ensures var g := Groups(Grouped(digits));
            && Paired(g[..|g| - 1], digits[..|digits| - 3])
            && g[|g| - 1] == digits[|digits| - 3..]
            && Joined(g) == digits
  {
    var head, tail := digits[..|digits| - 3], digits[|digits| - 3..];
    assert digits == head + tail;
    PairsShape(head);
    GroupsOfGrouped(head, tail);
    LastGroup(Groups(Pairs(head)), head, tail);
  }

  // ----- reading -----

  /** White space that both Go's unicode.IsSpace and JavaScript's \s know. */
  const COMMON_SPACES: set<char> := {
    '\t', '\n', '\U{0B}', '\U{0C}', '\r', ' ', '\U{A0}', '\U{1680}',
    '\U{2000}', '\U{2001}', '\U{2002}', '\U{2003}', '\U{2004}', '\U{2005}',
    '\U{2006}', '\U{2007}', '\U{2008}', '\U{2009}', '\U{200A}',
    '\U{2028}', '\U{2029}', '\U{202F}', '\U{205F}', '\U{3000}'}

  /** What strings.TrimSpace removes at both ends: NEL besides the common ones. */
  const GO_SPACES: set<char> := COMMON_SPACES + {'\U{85}'}

  /** What the parser deletes wherever it stands. */
  const DECORATION: set<char> := {',', '₹', ' '}

  function TrimLeft(s: string, spaces: set<char>): string {
    if s != "" && s[0] in spaces then TrimLeft(s[1..], spaces) else s
  }

  function TrimRight(s: string, spaces: set<char>): string {
    if s != "" && s[|s| - 1] in spaces then TrimRight(s[..|s| - 1], spaces) else s
  }

  function Trim(s: string, spaces: set<char>): string {
    TrimRight(TrimLeft(s, spaces), spaces)
  }

  /** The characters of s outside drop, in order. */
  function Without(s: string, drop: set<char>): string {
    if s == "" then "" else (if s[0] in drop then "" else [s[0]]) + Without(s[1..], drop)
  }

  lemma {:induction false} WithoutConcat(a: string, b: string, drop: set<char>)
    ensures Without(a + b, drop) == Without(a, drop) + Without(b, drop)
  {
    if a == "" {
      assert a + b == b;
    } else {
      var first := if a[0] in drop then "" else [a[0]];
      var rest, tail := Without(a[1..], drop), Without(b, drop);
      assert Without(a + b, drop) == first + (rest + tail) by {
        assert (a + b)[1..] == a[1..] + b;
        WithoutConcat(a[1..], b, drop);
      }
      assert first + (rest + tail) == first + rest + tail;
    }
  }

  lemma {:induction false} WithoutNothing(s: string, drop: set<char>)
    requires forall i :: 0 <= i < |s| ==> s[i] !in drop
    ensures Without(s, drop) == s
  {
    if s == "" {
    } else {
      WithoutNothing(s[1..], drop);
    }
  }

  /** The text the parser looks at: trimmed, then freed of commas, rupee signs and blanks. */
  function Cleaned(text: string): string {
    Without(Trim(text, GO_SPACES), DECORATION)
  }

  /** strings.Cut at the first decimal point. */
  function Cut(s: string): (string, string, bool) {
    if s == "" then ("", "", false)
    else if s[0] == '.' then ("", s[1..], true)
    else var (before, after, found) := Cut(s[1..]); ([s[0]] + before, after, found)
  }

  lemma {:induction false} CutAtPoint(a: string, b: string)
    requires '.' !in a
    ensures Cut(a + "." + b) == (a, b, true)
  {
    var s := a + "." + b;
    if a == "" {
      assert s[1..] == b;
    } else {
      CutAtPoint(a[1..], b);
      assert s[1..] == a[1..] + "." + b;
      assert [a[0]] + a[1..] == a;
    }
  }

  /** strconv.ParseInt(s, 10, 64): an optional sign of its own, digits, and a range check. */
  function ParseInt(s: string): (r: Option<Int64>) {
    var signed := s != "" && (s[0] == '-' || s[0] == '+');
    var digits := if signed then s[1..] else s;
    if digits == "" || !AllDigits(digits) then None
    else
      var n: int := if signed && s[0] == '-' then 0 - Value(digits) else Value(digits);
      if MIN_INT64 <= n <= MAX_INT64 then Some(n) else None
  }

  /** The two halves of an unsigned amount, padded the way the parser pads them. */
  function Halves(unsigned: string): Option<(string, string)> {
    var (before, after, found) := Cut(unsigned);
    if found && |after| > 2 then None
    else Some((if before == "" then "0" else before, if found then after + Zeros(2 - |after|) else "00"))
  }

  function Zeros(n: nat): (s: string)
    ensures |s| == n && AllDigits(s)
  {
    seq(n, _ => '0')
  }

  function Unsigned(cleaned: string): string {
    if cleaned != "" && (cleaned[0] == '-' || cleaned[0] == '+') then cleaned[1..] else cleaned
  }

  /** What ParseRupees returns; None stands for ErrInvalidAmount. */
  function Parsed(text: string): Option<Int64> {
    Read(Cleaned(text))
  }

  /** The amount a cleaned text stands for. */
  function Read(cleaned: string): Option<Int64> {
    if cleaned == "" then None
    else
      var halves := Halves(Unsigned(cleaned));
      if halves.None? then None
      else Amount(cleaned[0] == '-', halves.value.0, halves.value.1)
  }

  /** The two numerals combined in int64 arithmetic. */
  function Amount(negative: bool, whole: string, fraction: string): Option<Int64> {
    var w, f := ParseInt(whole), ParseInt(fraction);
    if w.None? || f.None? then None
    else
      var total := Wrap64(w.value * PAISE_PER_RUPEE + f.value);
      Some(if negative then Wrap64(0 - total) else total)
  }

  lemma AppendDigit(s: string, c: char)
    requires AllDigits(s) && IsDigit(c)
    ensures AllDigits(s + [c]) && Value(s + [c]) == Value(s) * 10 + DigitValue(c)
  {
    assert (s + [c])[..|s|] == s;
  }

  /** What one unit of the last decimal is worth in paise. */
  function Weight(decimals: nat): nat {
    if decimals == 0 then 100 else if decimals == 1 then 10 else 1
  }

  /** Filling up to two decimals multiplies by the weight of the last one there is. */
  lemma PaddedValue(digits: string, decimals: nat)
    requires AllDigits(digits) && decimals <= 2
    ensures Value(digits + Zeros(2 - decimals)) == Value(digits) * Weight(decimals)
  {
    AppendDigit(digits, '0');
    AppendDigit(digits + "0", '0');
    if decimals == 0 {
      assert digits + Zeros(2) == digits + "0" + "0";
    } else if decimals == 1 {
      assert digits + Zeros(1) == digits + "0";
    } else {
      assert digits + Zeros(0) == digits;
    }
  }

  lemma TwoDigitValue(fraction: string)
    requires |fraction| == 2 && AllDigits(fraction)
    ensures Value(fraction) == DigitValue(fraction[0]) * 10 + DigitValue(fraction[1])
  {
    AppendDigit("", fraction[0]);
    AppendDigit("" + [fraction[0]], fraction[1]);
    assert fraction == "" + [fraction[0]] + [fraction[1]];
  }

  /** A whole part and two decimals make one numeral. */
  lemma TwoDecimals(w: string, fraction: string)
    requires AllDigits(w) && AllDigits(fraction) && |fraction| == 2
    ensures AllDigits(w + fraction) && Value(w + fraction) == Value(w) * PAISE_PER_RUPEE + Value(fraction)
  {
    AppendDigit(w, fraction[0]);
    AppendDigit(w + [fraction[0]], fraction[1]);
    assert w + fraction == w + [fraction[0]] + [fraction[1]];
    TwoDigitValue(fraction);
  }

  lemma ZeroForNothing(w: string)
    requires AllDigits(w)
    ensures AllDigits(if w == "" then "0" else w) && Value(if w == "" then "0" else w) == Value(w)
  {
    assert "0"[..0] == "" && Value("0") == 0;
  }

  /** Whole part and padded decimals are the bare digits times the weight of the last one. */
  lemma ShiftedValue(w: string, f: string)
    requires AllDigits(w) && AllDigits(f) && |f| <= 2
    ensures AllDigits(w + f) && AllDigits(f + Zeros(2 - |f|))
    ensures Value(w) * PAISE_PER_RUPEE + Value(f + Zeros(2 - |f|)) == Value(w + f) * Weight(|f|)
  {
    PaddedValue(w + f, |f|);
    assert w + (f + Zeros(2 - |f|)) == (w + f) + Zeros(2 - |f|);
    TwoDecimals(w, f + Zeros(2 - |f|));
  }

  lemma HalvesOf(w: string, f: string)
    requires '.' !in w
    ensures Halves(w + "." + f) == None <==> |f| > 2
    ensures |f| <= 2 ==> Halves(w + "." + f) == Some((if w == "" then "0" else w, f + Zeros(2 - |f|)))
  {
    CutAtPoint(w, f);
  }

  /** Read as paise, the two halves are the digits with the point moved two places to the right. */
  lemma HalvesMoveThePoint(w: string, f: string)
    requires AllDigits(w) && AllDigits(f)
    ensures Halves(w + "." + f) == None <==> |f| > 2
    ensures |f| <= 2 ==>
              var (whole, fraction) := Halves(w + "." + f).value;
              && AllDigits(whole) && AllDigits(fraction) && |fraction| == 2
              && AllDigits(w + f)
              && Value(whole) * PAISE_PER_RUPEE + Value(fraction) == Value(w + f) * Weight(|f|)
  {
    HalvesOf(w, f);
    if |f| <= 2 {
      ShiftedValue(w, f);
      ZeroForNothing(w);
    }
  }

  /** Cuts at the point, supplies a missing rupee part and pads the paise; None when there are too many decimals. */
  method SplitAmount(unsigned: string) returns (halves: Option<(string, string)>)
    ensures halves == Halves(unsigned)
  {
    var (whole, fraction, hasFraction) := Cut(unsigned);
    if whole == "" {
      whole := "0";
    }
    if hasFraction {
      if |fraction| > 2 {
        return None;
      }
      fraction := fraction + Zeros(2 - |fraction|);
    } else {
      fraction := "00";
    }
    halves := Some((whole, fraction));
  }

  method ParseRupees(text: string) returns (r: Option<Int64>)
    ensures r == Parsed(text)
  {
    var cleaned := Cleaned(text);
    if cleaned == "" {
      return None;
    }
    var negative, unsigned := false, cleaned;
    if cleaned[0] == '-' {
      negative := true;
      unsigned := cleaned[1..];
    } else if cleaned[0] == '+' {
      unsigned := cleaned[1..];
    }
    assert unsigned == Unsigned(cleaned);
    var halves := SplitAmount(unsigned);
    if halves.None? {
      return None;
    }
    var (whole, fraction) := halves.value;
    assert Parsed(text) == Amount(negative, whole, fraction);
    var wholeValue, fractionValue := ParseInt(whole), ParseInt(fraction);
    if wholeValue.None? || fractionValue.None? {
      return None;
    }
    var total: int := Wrap64(wholeValue.value * PAISE_PER_RUPEE + fractionValue.value);
    if negative {
      total := Wrap64(0 - total);
    }
    r := Some(total);
  }

  // ----- parsing undoes printing -----

  lemma {:induction false} SeparatorStripped(a: string, b: string)
    ensures Without(a + "," + b, DECORATION) == Without(a, DECORATION) + Without(b, DECORATION)
  {
    WithoutConcat(a + ",", b, DECORATION);
    WithoutConcat(a, ",", DECORATION);
    assert Without(",", DECORATION) == "";
  }

  lemma {:induction false} PairsStripped(head: string)
    requires AllDigits(head)
    ensures Without(Pairs(head), DECORATION) == head
  {
    if |head| <= 2 {
      WithoutNothing(head, DECORATION);
    } else {
      var front, last := head[..|head| - 2], head[|head| - 2..];
      PairsStripped(front);
      WithoutNothing(last, DECORATION);
      SeparatorStripped(Pairs(front), last);
      assert front + last == head;
    }
  }

  /** Deleting the separators undoes the grouping. */
  lemma GroupedStripped(digits: string)
    requires AllDigits(digits)
    ensures Without(Grouped(digits), DECORATION) == digits
  {
    if |digits| <= 3 {
      WithoutNothing(digits, DECORATION);
    } else {
      var head, tail := digits[..|digits| - 3], digits[|digits| - 3..];
      PairsStripped(head);
      WithoutNothing(tail, DECORATION);
      SeparatorStripped(Pairs(head), tail);
      assert digits == head + tail;
    }
  }

  lemma {:induction false} PairsStart(head: string)
    requires AllDigits(head) && head != ""
    ensures Pairs(head) != "" && IsDigit(Pairs(head)[0])
  {
    if |head| > 2 {
      PairsStart(head[..|head| - 2]);
    }
  }

  lemma GroupedStart(digits: string)
    requires AllDigits(digits) && digits != ""
    ensures Grouped(digits) != "" && IsDigit(Grouped(digits)[0])
  {
    if |digits| > 3 {
      PairsStart(digits[..|digits| - 3]);
    }
  }

  lemma DigitIsNoSpace(c: char)
    requires IsDigit(c) || c == '-' || c == '₹'
    ensures c !in GO_SPACES
  {
  }

  lemma FormattedEnds(m: Int64, symbol: string)
    requires symbol == "" || symbol == "₹"
    ensures var t := Formatted(m, symbol);
            t != "" && t[0] !in GO_SPACES && t[|t| - 1] !in GO_SPACES
  {
    var grouped := Grouped(Decimal(Magnitude(m) / PAISE_PER_RUPEE));
    var two := TwoDigits(Magnitude(m) % PAISE_PER_RUPEE);
    var lead := (if m < 0 then "-" else "") + symbol;
    var t := Formatted(m, symbol);
    GroupedStart(Decimal(Magnitude(m) / PAISE_PER_RUPEE));
    assert t == lead + grouped + "." + two;
    assert t[0] == if lead == "" then grouped[0] else lead[0];
    assert t[|t| - 1] == two[1];
    DigitIsNoSpace(t[0]);
    DigitIsNoSpace(t[|t| - 1]);
  }

  /** The cleaned form of a printed amount: the sign and the bare digits. */
  function Bare(m: Int64): string {
    (if m < 0 then "-" else "") + Body(m)
  }

  function Body(m: Int64): (s: string)
    ensures s != "" && IsDigit(s[0])
  {
    Decimal(Magnitude(m) / PAISE_PER_RUPEE) + "." + TwoDigits(Magnitude(m) % PAISE_PER_RUPEE)
  }

  lemma LeadStripped(sign: string, symbol: string)
    requires sign == "" || sign == "-"
    requires symbol == "" || symbol == "₹"
    ensures Without(sign + symbol, DECORATION) == sign
  {
    WithoutConcat(sign, symbol, DECORATION);
    WithoutNothing(sign, DECORATION);
    assert Without(symbol, DECORATION) == "";
  }

  lemma PartsStripped(lead: string, grouped: string, tail: string)
    ensures Without(lead + grouped + tail, DECORATION)
         == Without(lead, DECORATION) + Without(grouped, DECORATION) + Without(tail, DECORATION)
  {
    WithoutConcat(lead + grouped, tail, DECORATION);
    WithoutConcat(lead, grouped, DECORATION);
  }

  lemma CleanedParts(sign: string, symbol: string, whole: string, tail: string, text: string)
    requires sign == "" || sign == "-"
    requires symbol == "" || symbol == "₹"
    requires AllDigits(whole)
    requires forall i :: 0 <= i < |tail| ==> tail[i] !in DECORATION
    requires text == sign + symbol + Grouped(whole) + tail
    ensures Without(text, DECORATION) == sign + whole + tail
  {
    PartsStripped(sign + symbol, Grouped(whole), tail);
    LeadStripped(sign, symbol);
    GroupedStripped(whole);
    WithoutNothing(tail, DECORATION);
  }

  lemma TrimNothing(s: string, spaces: set<char>)
    requires s != "" && s[0] !in spaces && s[|s| - 1] !in spaces
    ensures Trim(s, spaces) == s
  {
  }

  lemma FormattedCleaned(m: Int64, symbol: string)
    requires symbol == "" || symbol == "₹"
    ensures Cleaned(Formatted(m, symbol)) == Bare(m)
  {
    var whole := Decimal(Magnitude(m) / PAISE_PER_RUPEE);
    var two := TwoDigits(Magnitude(m) % PAISE_PER_RUPEE);
    var sign := if m < 0 then "-" else "";
    var t := Formatted(m, symbol);
    assert Trim(t, GO_SPACES) == t by {
      FormattedEnds(m, symbol);
      TrimNothing(t, GO_SPACES);
    }
    FormattedParts(m, symbol);
    CleanedParts(sign, symbol, whole, "." + two, t);
  }

  lemma FormattedParts(m: Int64, symbol: string)
    ensures var (sign, whole, tail) := (if m < 0 then "-" else "", Decimal(Magnitude(m) / PAISE_PER_RUPEE),
                                        "." + TwoDigits(Magnitude(m) % PAISE_PER_RUPEE));
            && Formatted(m, symbol) == sign + symbol + Grouped(whole) + tail
            && Bare(m) == sign + whole + tail
  {
  }

  lemma ParseIntOfDigits(s: string, n: nat)
    requires s != "" && AllDigits(s) && Value(s) == n && n <= MAX_INT64
    ensures ParseInt(s) == Some(n)
  {
    assert IsDigit(s[0]);
  }

  lemma BodyHalves(m: Int64)
    ensures Halves(Body(m)) == Some((Decimal(Magnitude(m) / PAISE_PER_RUPEE),
        TwoDigits(Magnitude(m) % PAISE_PER_RUPEE)))
  {
    var two := TwoDigits(Magnitude(m) % PAISE_PER_RUPEE);
    CutAtPoint(Decimal(Magnitude(m) / PAISE_PER_RUPEE), two);
    assert two + Zeros(0) == two;
  }

  lemma ParsedOf(text: string, negative: bool, body: string, whole: string, fraction: string)
    requires body != "" && IsDigit(body[0])
    requires Cleaned(text) == (if negative then "-" else "") + body
    requires Halves(body) == Some((whole, fraction))
    ensures Parsed(text) == Amount(negative, whole, fraction)
  {
    assert Unsigned(Cleaned(text)) == body;
  }

  lemma AmountOf(m: Int64, whole: string, fraction: string)
    requires ParseInt(whole) == Some(Magnitude(m) / PAISE_PER_RUPEE)
    requires ParseInt(fraction) == Some(Magnitude(m) % PAISE_PER_RUPEE)
    ensures Amount(m < 0, whole, fraction) == Some(m)
  {
  }

  /** Every amount, MinInt64 included, is read back from its own rendering. */
  lemma ParseUndoesFormat(m: Int64, symbol: string)
    requires symbol == "" || symbol == "₹"
    ensures Parsed(Formatted(m, symbol)) == Some(m)
  {
    var w, f := Magnitude(m) / PAISE_PER_RUPEE, Magnitude(m) % PAISE_PER_RUPEE;
    var whole, fraction := Decimal(w), TwoDigits(f);
    assert Parsed(Formatted(m, symbol)) == Amount(m < 0, whole, fraction) by {
      FormattedCleaned(m, symbol);
      BodyHalves(m);
      ParsedOf(Formatted(m, symbol), m < 0, Body(m), whole, fraction);
    }
    assert ParseInt(whole) == Some(w) by {
      DecimalRoundTrip(w);
      ParseIntOfDigits(whole, w);
    }
    assert ParseInt(fraction) == Some(f) by {
      TwoDigitsRoundTrip(f);
      ParseIntOfDigits(fraction, f);
    }
    AmountOf(m, whole, fraction);
  }
}
