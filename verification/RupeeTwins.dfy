/**
 The TypeScript twin of the rupee parser, and exactly when the two agree.  JavaScript
 arithmetic is rounded to doubles step by step, as format.ts computes it.
 */
module RupeeTwins {
  import opened Wrappers
  import opened Money

  const MAX_SAFE: int := 0x20_0000_0000_0000

  // ----- whole numbers as doubles -----

  /** The distance of neighbouring doubles around n: the least power of two that leaves 53 bits. */
  function Spacing(n: nat): (p: nat)
    ensures p >= 1
  {
    if n < MAX_SAFE then 1 else 2 * Spacing(n / 2)
  }

  /** The double nearest to a whole number, ties to even; below 2^1024, where none overflows. */
  function Double(n: nat): nat {
    var p := Spacing(n);
    var q, r := n / p, n % p;
    if 2 * r < p || (2 * r == p && q % 2 == 0) then q * p else (q + 1) * p
  }

  lemma {:induction false} SpacingFits(n: nat)
    requires n >= MAX_SAFE
    ensures MAX_SAFE / 2 * Spacing(n) <= n
  {
    if n / 2 < MAX_SAFE {
      assert Spacing(n / 2) == 1;
    } else {
      SpacingFits(n / 2);
    }
  }

  lemma MulMonotone(a: nat, b: nat, p: nat)
    ensures a <= b ==> a * p <= b * p
  {
  }

  lemma QuotientBound(n: nat, p: nat, half: nat)
    requires p >= 1 && half * p <= n
    ensures n / p * p >= half * p
  {
    var q := n / p;
    assert n == q * p + n % p;
    assert (q + 1) * p == q * p + p;
    MulMonotone(q + 1, half, p);
    MulMonotone(half, q, p);
  }

  /** Below 2^53 whole numbers are doubles, and nothing from there on is rounded below it. */
  lemma DoubleIsExact(n: nat)
    ensures n < MAX_SAFE ==> Double(n) == n
    ensures n >= MAX_SAFE ==> Double(n) >= MAX_SAFE
  {
    if n < MAX_SAFE {
      assert n / 1 == n && n % 1 == 0;
    } else {
      var p := Spacing(n);
      SpacingFits(n);
      QuotientBound(n, p, MAX_SAFE / 2);
      assert p == 2 * Spacing(n / 2);
      assert MAX_SAFE / 2 * p == MAX_SAFE * Spacing(n / 2) >= MAX_SAFE;
      assert (n / p + 1) * p == n / p * p + p;
    }
  }

  /** Number(whole) * 100 + Number(fraction). */
  function JsSum(whole: nat, fraction: nat): nat {
    Double(Double(Double(whole) * 100) + Double(fraction))
  }

  /** The sum is below 2^53 exactly when the exact one is, and then it is that one. */
  lemma JsSumIsExact(whole: nat, fraction: nat)
    requires fraction < 100
    ensures JsSum(whole, fraction) < MAX_SAFE <==> whole * 100 + fraction < MAX_SAFE
    ensures whole * 100 + fraction < MAX_SAFE ==> JsSum(whole, fraction) == whole * 100 + fraction
  {
    DoubleIsExact(fraction);
    DoubleIsExact(whole);
    DoubleIsExact(Double(whole) * 100);
    DoubleIsExact(Double(Double(whole) * 100) + fraction);
  }

  // ----- the parser -----

  /** JavaScript's \s and String.prototype.trim: no NEL, but the byte-order mark. */
  const JS_SPACES: set<char> := COMMON_SPACES + {'\U{FEFF}'}

  const JS_DROPPED: set<char> := {',', '₹'} + JS_SPACES

  function JsCleaned(text: string): string {
    Without(Trim(text, JS_SPACES), JS_DROPPED)
  }

  /** The value of rupeesToPaise on a text of amounts below 2^1024; None stands for NaN. */
  function RupeesToPaise(text: string): Option<int> {
    JsRead(JsCleaned(text))
  }

  /** The regular expression and the arithmetic behind it, on a cleaned text. */
  function JsRead(cleaned: string): Option<int> {
    var (whole, fraction, _) := Cut(Unsigned(cleaned));
    if !AllDigits(whole) || !AllDigits(fraction) || |fraction| > 2 then None
    else if whole == "" && fraction == "" then None
    else
      Some(Signed(cleaned != "" && cleaned[0] == '-',
                  JsSum(Value(if whole == "" then "0" else whole), Value(fraction + Zeros(2 - |fraction|)))))
  }

  function Signed(negative: bool, magnitude: int): int {
    if negative then -magnitude else magnitude
  }

  /** Inside its trimmed margins the text uses no white space but the blank. */
  predicate OnlyBlanksInside(text: string) {
    var inside := Trim(text, GO_SPACES);
    forall i :: 0 <= i < |inside| && inside[i] in JS_SPACES ==> inside[i] == ' '
  }

  /** The characters an amount is written with once cleaned. */
  predicate AmountChars(s: string) {
    forall i :: 0 <= i < |s| ==> IsDigit(s[i]) || s[i] in {'+', '-', '.'}
  }

  // ----- cleaning -----

  lemma {:induction false} Kept(s: string, i: nat, drop: set<char>)
    requires i < |s| && s[i] !in drop
    ensures s[i] in Without(s, drop)
  {
    if i == 0 {
    } else {
      Kept(s[1..], i - 1, drop);
    }
  }

  lemma {:induction false} TrimLeftAbsorbed(s: string, spaces: set<char>, drop: set<char>)
    requires forall i :: 0 <= i < |s| && s[i] in spaces ==> s[i] in drop
    ensures Without(TrimLeft(s, spaces), drop) == Without(s, drop)
    ensures forall i :: 0 <= i < |TrimLeft(s, spaces)| ==> TrimLeft(s, spaces)[i] in s
  {
    if s != "" && s[0] in spaces {
      TrimLeftAbsorbed(s[1..], spaces, drop);
    }
  }

  lemma {:induction false} TrimRightAbsorbed(s: string, spaces: set<char>, drop: set<char>)
    requires forall i :: 0 <= i < |s| && s[i] in spaces ==> s[i] in drop
    ensures Without(TrimRight(s, spaces), drop) == Without(s, drop)
  {
    if s != "" && s[|s| - 1] in spaces {
      var front, last := s[..|s| - 1], [s[|s| - 1]];
      TrimRightAbsorbed(front, spaces, drop);
      WithoutConcat(front, last, drop);
      assert front + last == s;
      assert Without(last, drop) == "";
    }
  }

  /** Trimming before deleting changes nothing when the trimmed characters are deleted anyway. */
  lemma TrimAbsorbed(s: string, spaces: set<char>, drop: set<char>)
    requires forall i :: 0 <= i < |s| && s[i] in spaces ==> s[i] in drop
    ensures Without(Trim(s, spaces), drop) == Without(s, drop)
  {
    TrimLeftAbsorbed(s, spaces, drop);
    TrimRightAbsorbed(TrimLeft(s, spaces), spaces, drop);
  }

  lemma {:induction false} WithoutSame(s: string, drop: set<char>, drop': set<char>)
    requires forall i :: 0 <= i < |s| ==> (s[i] in drop <==> s[i] in drop')
    ensures Without(s, drop) == Without(s, drop')
  {
    if s == "" {
    } else {
      WithoutSame(s[1..], drop, drop');
    }
  }

  const NEL := '\U{85}'

  /** Where nothing but blanks stands inside and no NEL anywhere, both clean alike. */
  lemma CleanedSame(text: string)
    requires NEL !in text && OnlyBlanksInside(text)
    ensures Cleaned(text) == JsCleaned(text)
  {
    var inside := Trim(text, GO_SPACES);
    TrimAbsorbed(text, JS_SPACES, JS_DROPPED);
    forall i | 0 <= i < |text| && text[i] in GO_SPACES ensures text[i] in JS_DROPPED {
      assert text[i] != NEL;
    }
    TrimAbsorbed(text, GO_SPACES, JS_DROPPED);
    WithoutSame(inside, JS_DROPPED, DECORATION);
  }

  /** The TypeScript parser keeps a NEL wherever it stands. */
  lemma NelIsKept(text: string)
    requires NEL in text
    ensures !AmountChars(JsCleaned(text))
  {
    var i :| 0 <= i < |text| && text[i] == NEL;
    TrimAbsorbed(text, JS_SPACES, JS_DROPPED);
    Kept(text, i, JS_DROPPED);
    NelIsNoAmountChar(JsCleaned(text));
  }

  lemma NelIsNoAmountChar(s: string)
    requires NEL in s
    ensures !AmountChars(s)
  {
    var k :| 0 <= k < |s| && s[k] == NEL;
  }

  /** When the TypeScript parser is left with an amount, only blanks inside make both clean alike. */
  lemma CleanedAlike(text: string)
    requires AmountChars(JsCleaned(text)) && OnlyBlanksInside(text)
    ensures Cleaned(text) == JsCleaned(text)
  {
    if NEL in text {
      NelIsKept(text);
      assert false;
    }
    CleanedSame(text);
  }

  // ----- acceptance -----

  lemma {:induction false} CutJoins(s: string)
    ensures var (before, after, found) := Cut(s);
            s == before + (if found then "." + after else "") && (!found ==> after == "")
  {
    if s != "" && s[0] != '.' {
      CutJoins(s[1..]);
      assert s == [s[0]] + s[1..];
    }
  }

  lemma ParseIntChars(s: string)
    requires ParseInt(s).Some?
    ensures AmountChars(s)
  {
    var digits := if s[0] == '-' || s[0] == '+' then s[1..] else s;
    forall i | 0 <= i < |s| ensures IsDigit(s[i]) || s[i] in {'+', '-', '.'} {
      if i > 0 || digits == s {
        assert s[i] == if digits == s then digits[i] else digits[i - 1];
      }
    }
  }

  lemma AmountCharsConcat(a: string, b: string)
    requires AmountChars(a) && AmountChars(b)
    ensures AmountChars(a + b)
  {
    forall i | 0 <= i < |a + b| ensures IsDigit((a + b)[i]) || (a + b)[i] in {'+', '-', '.'} {
      assert (a + b)[i] == if i < |a| then a[i] else b[i - |a|];
    }
  }

  lemma AmountCharsPrefix(a: string, b: string)
    requires AmountChars(a + b)
    ensures AmountChars(a)
  {
    forall i | 0 <= i < |a| ensures IsDigit(a[i]) || a[i] in {'+', '-', '.'} {
      assert (a + b)[i] == a[i];
    }
  }

  lemma UnsignedChars(cleaned: string)
    requires AmountChars(Unsigned(cleaned))
    ensures AmountChars(cleaned)
  {
    var unsigned := Unsigned(cleaned);
    if unsigned != cleaned {
      AmountCharsConcat([cleaned[0]], unsigned);
      assert cleaned == [cleaned[0]] + unsigned;
    }
  }

  lemma CutChars(s: string)
    requires var (before, after, _) := Cut(s); AmountChars(before) && AmountChars(after)
    ensures AmountChars(s)
  {
    var (before, after, found) := Cut(s);
    CutJoins(s);
    if found {
      AmountCharsConcat(".", after);
      AmountCharsConcat(before, "." + after);
    } else {
      assert s == before;
    }
  }

  lemma HalvesChars(s: string)
    requires Halves(s).Some? && ParseInt(Halves(s).value.0).Some? && ParseInt(Halves(s).value.1).Some?
    ensures var (before, after, _) := Cut(s); AmountChars(before) && AmountChars(after)
  {
    var (before, after, found) := Cut(s);
    var (whole, fraction) := Halves(s).value;
    CutJoins(s);
    ParseIntChars(whole);
    ParseIntChars(fraction);
    if found {
      AmountCharsPrefix(after, Zeros(2 - |after|));
    }
  }

  /** Whatever the Go parser accepts is written in amount characters once cleaned. */
  lemma AcceptedChars(text: string)
    requires Parsed(text).Some?
    ensures AmountChars(Cleaned(text))
  {
    HalvesChars(Unsigned(Cleaned(text)));
    CutChars(Unsigned(Cleaned(text)));
    UnsignedChars(Cleaned(text));
  }

  lemma DigitsAreAmountChars(text: string)
    requires RupeesToPaise(text).Some?
    ensures AmountChars(JsCleaned(text))
  {
    CutChars(Unsigned(JsCleaned(text)));
    UnsignedChars(JsCleaned(text));
  }

  lemma ZerosValue(s: string)
    requires AllDigits(s) && |s| <= 2
    ensures var padded := s + Zeros(2 - |s|); AllDigits(padded) && |padded| == 2 && Value(padded) < 100
  {
    var padded := s + Zeros(2 - |s|);
    assert padded[..1][..0] == "";
    assert Value(padded[..1]) == DigitValue(padded[..1][0]);
  }

  lemma AmountAlike(negative: bool, whole: string, fraction: string)
    requires whole != "" && AllDigits(whole) && fraction != "" && AllDigits(fraction)
    requires Value(fraction) < 100
    requires Value(whole) * 100 + Value(fraction) < MAX_SAFE
    ensures Amount(negative, whole, fraction) == Some(Signed(negative, Value(whole) * 100 + Value(fraction)))
  {
    ParseIntOfDigits(whole, Value(whole));
    ParseIntOfDigits(fraction, Value(fraction));
  }

  lemma HalvesAlike(unsigned: string, before: string, after: string, found: bool)
    requires Cut(unsigned) == (before, after, found)
    requires |after| <= 2
    ensures Halves(unsigned) == Some((if before == "" then "0" else before, after + Zeros(2 - |after|)))
  {
    CutJoins(unsigned);
    assert "" + Zeros(2) == "00";
  }

  /** Digits on both sides of the point, if there is one, no more than two behind it, and not the point alone. */
  predicate Plain(cleaned: string) {
    var (whole, fraction, _) := Cut(Unsigned(cleaned));
    AllDigits(whole) && AllDigits(fraction) && |fraction| <= 2 && !(whole == "" && fraction == "")
  }

  /** The two numerals of a plain text, as both parsers pad them. */
  function Numerals(cleaned: string): (n: (string, string))
    requires Plain(cleaned)
    ensures n.0 != "" && AllDigits(n.0) && |n.1| == 2 && AllDigits(n.1)
  {
    var (whole, fraction, _) := Cut(Unsigned(cleaned));
    (if whole == "" then "0" else whole, fraction + Zeros(2 - |fraction|))
  }

  predicate Negative(cleaned: string) {
    cleaned != "" && cleaned[0] == '-'
  }

  /** The paise a plain text stands for, in unbounded integers. */
  function Exact(cleaned: string): int
    requires Plain(cleaned)
  {
    var (whole, fraction) := Numerals(cleaned);
    Signed(Negative(cleaned), Value(whole) * 100 + Value(fraction))
  }

  predicate Safe(paise: int) {
    -MAX_SAFE < paise < MAX_SAFE
  }

  lemma FractionBelow(cleaned: string)
    requires Plain(cleaned)
    ensures Value(Numerals(cleaned).1) < 100
  {
    ZerosValue(Cut(Unsigned(cleaned)).1);
  }

  /** TypeScript accepts exactly the plain texts. */
  lemma JsReadsNumerals(cleaned: string)
    ensures JsRead(cleaned).Some? <==> Plain(cleaned)
    ensures Plain(cleaned) ==>
              var (whole, fraction) := Numerals(cleaned);
              JsRead(cleaned) == Some(Signed(Negative(cleaned), JsSum(Value(whole), Value(fraction))))
  {
  }

  /** It reads them exactly unless they stand for 2^53 paise or more. */
  lemma JsReadsPlain(cleaned: string)
    requires Plain(cleaned)
    ensures JsRead(cleaned).Some?
    ensures Safe(JsRead(cleaned).value) <==> Safe(Exact(cleaned))
    ensures Safe(Exact(cleaned)) ==> JsRead(cleaned).value == Exact(cleaned)
  {
    var (whole, fraction) := Numerals(cleaned);
    JsReadsNumerals(cleaned);
    FractionBelow(cleaned);
    JsSumIsExact(Value(whole), Value(fraction));
  }

  /** What Go makes of the two numerals of a plain text. */
  lemma GoReadsNumerals(cleaned: string)
    requires Plain(cleaned)
    ensures Read(cleaned) == Amount(Negative(cleaned), Numerals(cleaned).0, Numerals(cleaned).1)
  {
    var (before, after, found) := Cut(Unsigned(cleaned));
    CutJoins(Unsigned(cleaned));
    HalvesAlike(Unsigned(cleaned), before, after, found);
  }

  /** On one cleaned text the two readings give the same paise. */
  lemma ReadAlike(cleaned: string, paise: int)
    requires JsRead(cleaned) == Some(paise) && Safe(paise)
    ensures Read(cleaned) == Some(paise)
  {
    JsReadsNumerals(cleaned);
    JsReadsPlain(cleaned);
    FractionBelow(cleaned);
    GoReadsNumerals(cleaned);
    AmountAlike(Negative(cleaned), Numerals(cleaned).0, Numerals(cleaned).1);
  }

  lemma SpaceIsNoAmountChar(c: char)
    requires c in JS_SPACES
    ensures !IsDigit(c) && c !in {'+', '-', '.'}
    ensures c != ' ' ==> c !in DECORATION
  {
  }

  /** White space other than a blank survives Go's cleaning and is then refused. */
  lemma ForeignSpaceRefused(text: string)
    requires !OnlyBlanksInside(text)
    ensures Parsed(text) == None
  {
    var inside := Trim(text, GO_SPACES);
    var i :| 0 <= i < |inside| && inside[i] in JS_SPACES && inside[i] != ' ';
    SpaceIsNoAmountChar(inside[i]);
    Kept(inside, i, DECORATION);
    if Parsed(text).Some? {
      AcceptedChars(text);
      assert false;
    }
  }

  /**
   Where the TypeScript parser accepts a text of less than 2^53 paise, the Go parser
   returns the same paise exactly when the text has no white space but blanks inside
   its margins, and refuses it otherwise.
   */
  lemma TwinsAgree(text: string, paise: int)
    requires RupeesToPaise(text) == Some(paise) && Safe(paise)
    ensures Parsed(text) == Some(paise) <==> OnlyBlanksInside(text)
    ensures Parsed(text) == None <==> !OnlyBlanksInside(text)
  {
    if OnlyBlanksInside(text) {
      DigitsAreAmountChars(text);
      CleanedAlike(text);
      ReadAlike(Cleaned(text), paise);
    } else {
      ForeignSpaceRefused(text);
    }
  }

  // ----- what Go accepts -----

  predicate Fits(paise: int) {
    MIN_INT64 <= paise <= MAX_INT64
  }

  /** Two numerals combine without wrapping exactly when the exact sum fits. */
  lemma {:induction false} AmountExactIff(negative: bool, whole: string, fraction: string)
    requires AllDigits(whole) && AllDigits(fraction) && Amount(negative, whole, fraction).Some?
    ensures var exact := Signed(negative, Value(whole) * 100 + Value(fraction));
            Amount(negative, whole, fraction) == Some(exact) <==> Fits(exact)
  {
    ParseIntValue(whole);
    ParseIntValue(fraction);
  }

  lemma ParseIntValue(s: string)
    requires AllDigits(s) && ParseInt(s).Some?
    ensures ParseInt(s) == Some(Value(s))
  {
    assert s != "";
    assert IsDigit(s[0]);
  }

  /** A plain text that Go accepts is read exactly unless it wraps. */
  lemma GoReadsPlain(cleaned: string)
    requires Read(cleaned).Some? && Plain(cleaned)
    ensures Read(cleaned) == Some(Exact(cleaned)) <==> Fits(Exact(cleaned))
  {
    GoReadsNumerals(cleaned);
    AmountExactIff(Negative(cleaned), Numerals(cleaned).0, Numerals(cleaned).1);
  }

  /**
   Where the Go parser accepts a text and returns less than 2^53 paise, the TypeScript parser
   gives the same paise exactly when the text holds no NEL, both sides of its point are plain
   digits, it is not a lone point, and it does stand for less than 2^53 paise.
   */
  lemma TwinsAgreeOnAccepted(text: string, paise: Int64)
    requires Parsed(text) == Some(paise) && Safe(paise)
    ensures var cleaned := Cleaned(text);
            RupeesToPaise(text) == Some(paise)
            <==> NEL !in text && Plain(cleaned) && Safe(Exact(cleaned))
  {
    if NEL in text {
      NelIsKept(text);
      if RupeesToPaise(text).Some? {
        DigitsAreAmountChars(text);
        assert false;
      }
    } else {
      if !OnlyBlanksInside(text) {
        ForeignSpaceRefused(text);
        assert false;
      }
      CleanedSame(text);
      JsReadsNumerals(Cleaned(text));
      if Plain(Cleaned(text)) {
        JsReadsPlain(Cleaned(text));
        GoReadsPlain(Cleaned(text));
      }
    }
  }

  // ----- printed amounts -----

  /** Where nothing is trimmed, what Go accepts holds no NEL. */
  lemma NoNel(text: string)
    requires Trim(text, GO_SPACES) == text && Parsed(text).Some?
    ensures NEL !in text
  {
    if NEL in text {
      var i :| 0 <= i < |text| && text[i] == NEL;
      assert NEL !in DECORATION;
      Kept(text, i, DECORATION);
      AcceptedChars(text);
      assert false;
    }
  }

  lemma PrintedCleaned(m: Int64, symbol: string)
    requires symbol == "" || symbol == "₹"
    ensures JsCleaned(Formatted(m, symbol)) == Bare(m)
  {
    var t := Formatted(m, symbol);
    ParseUndoesFormat(m, symbol);
    FormattedEnds(m, symbol);
    TrimNothing(t, GO_SPACES);
    NoNel(t);
    if !OnlyBlanksInside(t) {
      ForeignSpaceRefused(t);
      assert false;
    }
    CleanedSame(t);
    FormattedCleaned(m, symbol);
  }

  lemma BareReads(m: Int64)
    ensures JsRead(Bare(m)) == Some(Signed(m < 0, JsSum(Magnitude(m) / PAISE_PER_RUPEE,
        Magnitude(m) % PAISE_PER_RUPEE)))
  {
    var whole, two := Decimal(Magnitude(m) / PAISE_PER_RUPEE), TwoDigits(Magnitude(m) % PAISE_PER_RUPEE);
    assert Unsigned(Bare(m)) == Body(m);
    CutAtPoint(whole, two);
    assert two + Zeros(0) == two;
    DecimalRoundTrip(Magnitude(m) / PAISE_PER_RUPEE);
    TwoDigitsRoundTrip(Magnitude(m) % PAISE_PER_RUPEE);
  }

  /** TypeScript reads a printed amount as the double sum of its parts. */
  lemma PrintedReads(m: Int64, symbol: string)
    requires symbol == "" || symbol == "₹"
    ensures RupeesToPaise(Formatted(m, symbol))
         == Some(Signed(m < 0, JsSum(Magnitude(m) / PAISE_PER_RUPEE, Magnitude(m) % PAISE_PER_RUPEE)))
  {
    PrintedCleaned(m, symbol);
    BareReads(m);
  }

  /** So below 2^53 paise TypeScript undoes Go's printer, too. */
  lemma PrintedReadsBack(m: Int64, symbol: string)
    requires (symbol == "" || symbol == "₹") && Safe(m)
    ensures RupeesToPaise(Formatted(m, symbol)) == Some(m)
  {
    PrintedReads(m, symbol);
    SafeSum(m);
  }

  lemma SafeSum(m: Int64)
    requires Safe(m)
    ensures Signed(m < 0, JsSum(Magnitude(m) / PAISE_PER_RUPEE, Magnitude(m) % PAISE_PER_RUPEE)) == m
  {
    JsSumIsExact(Magnitude(m) / PAISE_PER_RUPEE, Magnitude(m) % PAISE_PER_RUPEE);
  }

  lemma TwiceIsEven(q: nat, half: nat)
    ensures q * (2 * half) % 2 == 0
  {
    assert q * (2 * half) == 2 * (q * half);
  }

  /** From 2^53 on doubles are even. */
  lemma DoublesAreEven(n: nat)
    requires n >= MAX_SAFE
    ensures Double(n) % 2 == 0
  {
    var half, p := Spacing(n / 2), Spacing(n);
    assert p == 2 * half;
    TwiceIsEven(n / p, half);
    TwiceIsEven(n / p + 1, half);
  }

  lemma SumIsEven(whole: nat, fraction: nat)
    requires JsSum(whole, fraction) >= MAX_SAFE
    ensures JsSum(whole, fraction) % 2 == 0
  {
    var sum := Double(Double(whole) * 100) + Double(fraction);
    DoubleIsExact(sum);
    DoublesAreEven(sum);
  }

  lemma SignedIsEven(negative: bool, sum: nat)
    requires sum % 2 == 0
    ensures Signed(negative, sum) % 2 == 0
  {
  }

  lemma PrintedReadsEven(m: Int64, symbol: string)
    requires (symbol == "" || symbol == "₹") && !Safe(m)
    ensures RupeesToPaise(Formatted(m, symbol)).Some? && RupeesToPaise(Formatted(m, symbol)).value % 2 == 0
  {
    var whole, fraction := Magnitude(m) / PAISE_PER_RUPEE, Magnitude(m) % PAISE_PER_RUPEE;
    var sum := JsSum(whole, fraction);
    PrintedReads(m, symbol);
    JsSumIsExact(whole, fraction);
    SumIsEven(whole, fraction);
    SignedIsEven(m < 0, sum);
  }

  /**
   From 2^53 on the two part over every odd amount, such as 90071992547409.93: Go reads its own
   print back, TypeScript does not.
   */
  lemma OddAmountsAreRounded(m: Int64, symbol: string)
    requires (symbol == "" || symbol == "₹") && !Safe(m) && m % 2 == 1
    ensures Parsed(Formatted(m, symbol)) == Some(m)
    ensures RupeesToPaise(Formatted(m, symbol)) != Some(m)
  {
    ParseUndoesFormat(m, symbol);
    PrintedReadsEven(m, symbol);
  }

  // ----- texts only one of them accepts -----

  lemma DroppedBetween(a: char, b: char, c: char, drop: set<char>)
    requires a !in drop && b in drop && c !in drop
    ensures Without([a, b, c], drop) == [a, c]
  {
    assert [a, b, c][1..] == [b, c] && [b, c][1..] == [c] && [c][1..] == [];
    assert Without([c], drop) == [c];
    assert Without([b, c], drop) == [c];
    assert [a] + [c] == [a, c];
  }

  /** TypeScript drops a tab between digits, Go does not and refuses the text. */
  lemma TabInside()
    ensures RupeesToPaise("1\t0") == Some(1000) && Parsed("1\t0") == None
  {
    var text := "1\t0";
    TrimNothing(text, JS_SPACES);
    TrimNothing(text, GO_SPACES);
    DroppedBetween('1', '\t', '0', JS_DROPPED);
    assert text == ['1', '\t', '0'] && "10" == ['1', '0'];
    TenReads();
    assert text[1] in JS_SPACES && text[1] != ' ';
    ForeignSpaceRefused(text);
  }

  lemma TenReads()
    ensures JsRead("10") == Some(1000)
  {
    CutWithoutPoint("10");
    NoPaise();
    assert "10"[..1] == "1" && "1"[..0] == "" && Value("1") == 1 && Value("10") == 10;
    JsSumIsExact(10, 0);
  }

  lemma UndecoratedGo(text: string)
    requires AmountChars(text)
    ensures forall i :: 0 <= i < |text| ==> text[i] !in GO_SPACES && text[i] !in DECORATION
  {
  }

  lemma UndecoratedJs(text: string)
    requires AmountChars(text)
    ensures forall i :: 0 <= i < |text| ==> text[i] !in JS_SPACES && text[i] !in JS_DROPPED
  {
  }

  lemma CleanedPlain(text: string)
    requires text != "" && AmountChars(text)
    ensures Cleaned(text) == text && JsCleaned(text) == text
  {
    UndecoratedGo(text);
    UndecoratedJs(text);
    TrimNothing(text, GO_SPACES);
    TrimNothing(text, JS_SPACES);
    WithoutNothing(text, DECORATION);
    WithoutNothing(text, JS_DROPPED);
  }

  lemma NoPaise()
    ensures var zeros := "" + Zeros(2); AllDigits(zeros) && Value(zeros) == 0 && ParseInt(zeros) == Some(0)
  {
    var zeros := "" + Zeros(2);
    assert zeros[..1][..0] == "";
    assert Value(zeros[..1]) == 0;
    ParseIntOfDigits(zeros, 0);
  }

  lemma PointCut()
    ensures Cut(".") == ("", "", true) && Unsigned(".") == "."
  {
    assert "."[1..] == "";
  }

  lemma ZeroAmount()
    ensures Amount(false, "0", "" + Zeros(2)) == Some(0)
  {
    NoPaise();
    assert "0"[..0] == "" && Value("0") == 0;
    AmountAlike(false, "0", "" + Zeros(2));
  }

  lemma PointReads()
    ensures Read(".") == Some(0)
  {
    PointCut();
    HalvesAlike(".", "", "", true);
    ZeroAmount();
  }

  /** The Go parser alone takes a lone point as nothing. */
  lemma LonePoint()
    ensures Parsed(".") == Some(0) && RupeesToPaise(".") == None
  {
    CleanedPlain(".");
    PointReads();
    PointCut();
  }

  lemma {:induction false} CutWithoutPoint(s: string)
    requires '.' !in s
    ensures Cut(s) == (s, "", false)
  {
    if s == "" {
    } else {
      CutWithoutPoint(s[1..]);
      assert [s[0]] + s[1..] == s;
    }
  }

  lemma MinusFive()
    ensures ParseInt("-5") == Some(-5) && !AllDigits("-5") && Cut("-5") == ("-5", "", false)
  {
    assert "-5"[1..] == "5" && "5"[1..] == "" && "5"[..0] == "";
    assert Value("5") == 5;
    assert "-5"[0] == '-';
    CutWithoutPoint("-5");
  }

  lemma MinusFiveRefused()
    ensures JsRead("--5") == None
  {
    MinusFive();
    assert Unsigned("--5") == "-5";
  }

  lemma MinusFiveAmount()
    ensures Amount(true, "-5", "" + Zeros(2)) == Some(500)
  {
    MinusFive();
    NoPaise();
  }

  lemma MinusFiveReads()
    ensures Read("--5") == Some(500)
  {
    MinusFive();
    HalvesAlike("-5", "-5", "", false);
    assert Unsigned("--5") == "-5";
    MinusFiveAmount();
  }

  /** The Go parser alone reads a second sign after the first. */
  lemma SecondSign()
    ensures Parsed("--5") == Some(500) && RupeesToPaise("--5") == None
  {
    CleanedPlain("--5");
    MinusFiveReads();
    MinusFiveRefused();
  }
}
