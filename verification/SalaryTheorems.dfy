/** What the printed pay says when it is parsed again. */
module SalaryTheorems {
  import opened Options
  import opened Salary
  import opened Text

  // ---- numbers ----

  lemma {:induction false} StripOfBoth(a: string, b: string)
    ensures Strip(a + b) == Strip(a) + Strip(b)
  {
    if b == "" {
      assert a + b == a;
    } else {
      assert (a + b)[..|a + b| - 1] == a + b[..|b| - 1];
      StripOfBoth(a, b[..|b| - 1]);
    }
  }

  lemma {:induction false} DigitsAreKept(s: string)
    requires AllDigits(s)
    ensures Strip(s) == s
  {
    if s != "" {
      DigitsAreKept(s[..|s| - 1]);
      assert s == s[..|s| - 1] + [s[|s| - 1]];
    }
  }

  /** Stripping undoes the grouping. */
  lemma {:induction false} StripUndoesGrouping(s: string)
    requires AllDigits(s)
    ensures Strip(Grouping(s)) == s
  {
    if |s| <= 3 {
      DigitsAreKept(s);
    } else {
      var front, last := s[..|s| - 3], s[|s| - 3..];
      StripUndoesGrouping(front);
      StripOfBoth(Grouping(front) + ".", last);
      StripOfBoth(Grouping(front), ".");
      assert Strip(".") == "" by { assert "."[..0] == ""; }
      DigitsAreKept(last);
      assert s == front + "" + last;
    }
  }

  lemma {:induction false} NatOfDigits(n: nat)
    ensures NatOf(Digits(n)) == n
  {
    var s := Digits(n);
    assert s[|s| - 1] as int - '0' as int == n % 10;
    if n < 10 {
      assert s[..|s| - 1] == "";
    } else {
      NatOfDigits(n / 10);
      assert s[..|s| - 1] == Digits(n / 10);
    }
  }

  lemma {:induction false} GroupingIsANumber(s: string)
    requires s != "" && AllDigits(s)
    ensures var t := Grouping(s);
      t != "" && IsDigit(t[0]) && forall i :: 0 <= i < |t| ==> IsDigit(t[i]) || t[i] == '.'
  {
    if |s| > 3 {
      GroupingIsANumber(s[..|s| - 3]);
    }
  }

  function NumberText(n: nat): (t: string)
    ensures t != "" && IsDigit(t[0]) && forall i :: 0 <= i < |t| ==> IsDigit(t[i]) || t[i] == '.'
  {
    GroupingIsANumber(Digits(n));
    Grouping(Digits(n))
  }

  lemma ParseNumberText(n: nat)
    ensures ParseInt(Strip(NumberText(n))) == if n <= MAX_INT64 then Some(n) else None
  {
    StripUndoesGrouping(Digits(n));
    NatOfDigits(n);
  }

  // ---- tokens ----

  lemma {:induction false} TokensAfterText(p: string, s: string)
    requires forall i :: 0 <= i < |p| ==> !IsDigit(p[i])
    ensures Tokens(p + s) == Tokens(s)
  {
    if p == "" {
      assert p + s == s;
    } else {
      assert (p + s)[1..] == p[1..] + s;
      TokensAfterText(p[1..], s);
    }
  }

  lemma {:induction false} RunEndsAt(s: string, i: nat, k: nat)
    requires i <= k <= |s| && (k < |s| ==> !InNumber(s[k])) && forall j :: i <= j < k ==> InNumber(s[j])
    ensures RunEnd(s, i) == k
    decreases k - i
  {
    if i < k {
      RunEndsAt(s, i + 1, k);
    }
  }

  lemma TokensOfNumber(n: nat, rest: string)
    requires rest != "" ==> !InNumber(rest[0])
    ensures Tokens(NumberText(n) + rest) == [NumberText(n)] + Tokens(rest)
  {
    var t := NumberText(n);
    RunEndsAt(t + rest, 1, |t|);
    assert (t + rest)[..|t|] == t && (t + rest)[|t|..] == rest;
  }

  // ---- the text of a label ----

  function Magnitude(n: int): nat {
    if n < 0 then -n else n
  }

  function Sign(n: int): string {
    if n < 0 then "-" else ""
  }

  lemma GroupedTextIs(n: int)
    ensures GroupedText(n) == Sign(n) + NumberText(Magnitude(n))
  {
    if n >= 0 {
      assert "" + NumberText(n) == NumberText(n);
    }
  }

  lemma LowerOfBoth(a: string, b: string)
    ensures Lower(a + b) == Lower(a) + Lower(b)
  {
  }

  /** The letters of a rupiah label. */
  predicate Plain(s: string) {
    forall i :: 0 <= i < |s| ==> s[i] in ['r', 'p', ' ', '-', '.'] || IsDigit(s[i])
  }

  lemma GroupedTextIsPlain(n: int)
    ensures Plain(GroupedText(n)) && Lower(GroupedText(n)) == GroupedText(n)
  {
    GroupedTextIs(n);
  }

  /** `word` has a letter that no label has. */
  lemma PlainLacks(s: string, word: string, i: nat, k: nat)
    requires Plain(s) && k < |word| && word[k] !in ['r', 'p', ' ', '-', '.'] && !IsDigit(word[k])
    ensures !OccursAt(s, word, i)
  {
    if i + |word| <= |s| {
      assert s[i..i + |word|][k] == s[i + k];
    }
  }

  lemma PlainSaysSomething(s: string)
    requires Plain(s) && s != ""
    ensures !SaysNothing(s)
  {
    forall word, i: nat | word in SKIPPED_WORDS ensures !OccursAt(s, word, i) {
      PlainLacks(s, word, i, 0);
    }
  }

  lemma PlainIsNotForeign(s: string)
    requires Plain(s)
    ensures !SaysForeign(s)
  {
    forall code, i: nat | code in FOREIGN_CODES ensures !OccursAt(s, code, i) {
      PlainLacks(s, code, i, if code == "php" then 1 else 0);
    }
  }

  lemma PlainIsNotInMillions(s: string)
    requires Plain(s)
    ensures !SaysMillions(s)
  {
    forall i: nat ensures !OccursAt(s, "juta", i) && !OccursAt(s, "jt", i) {
      PlainLacks(s, "juta", i, 0);
      PlainLacks(s, "jt", i, 0);
    }
  }

  lemma StartsWithRupiah(s: string)
    requires |s| > 2 && s[..3] == "rp "
    ensures SaysRupiah(s)
  {
    assert s[0] == s[..3][0] && s[1] == s[..3][1] && s[2] == s[..3][2];
    assert s[0..2] == "rp";
    assert CurrencyAt(s, "rp", 0);
  }

  /** None of the conditions stops a rupiah label. */
  lemma RupiahText(s: string, rounded: string -> Option<int>)
    requires Plain(s) && |s| > 2 && s[..3] == "rp "
    ensures StatedIn(s, rounded) == RangeOf(ValuesOf(Tokens(s)))
  {
    PlainSaysSomething(s);
    PlainIsNotForeign(s);
    PlainIsNotInMillions(s);
    StartsWithRupiah(s);
  }

  function OneAmountText(a: int): string {
    "Rp " + GroupedText(a)
  }

  function TwoAmountText(a: int, b: int): string {
    "Rp " + GroupedText(a) + " - Rp " + GroupedText(b)
  }

  lemma LowerOfOne(a: int)
    ensures Lower(OneAmountText(a)) == "rp " + GroupedText(a) && Plain("rp " + GroupedText(a))
  {
    GroupedTextIsPlain(a);
    LowerOfBoth("Rp ", GroupedText(a));
    assert Lower("Rp ") == "rp ";
  }

  lemma LowerOfTwo(a: int, b: int)
    ensures Lower(TwoAmountText(a, b)) == "rp " + GroupedText(a) + " - rp " + GroupedText(b)
    ensures Plain("rp " + GroupedText(a) + " - rp " + GroupedText(b))
  {
    LowerOfOne(a);
    GroupedTextIsPlain(b);
    LowerOfBoth(OneAmountText(a), " - Rp ");
    LowerOfBoth(OneAmountText(a) + " - Rp ", GroupedText(b));
    assert Lower(" - Rp ") == " - rp ";
  }

  lemma TokensOfOne(a: int)
    ensures Tokens("rp " + GroupedText(a)) == [NumberText(Magnitude(a))]
  {
    GroupedTextIs(a);
    var number := NumberText(Magnitude(a));
    assert "rp " + GroupedText(a) == ("rp " + Sign(a)) + number && number + "" == number;
    TokensAfterText("rp " + Sign(a), number);
    TokensOfNumber(Magnitude(a), "");
  }

  lemma OneAmount(a: int, rounded: string -> Option<int>)
    ensures Stated(OneAmountText(a), rounded) == RangeOf(ValuesOf([NumberText(Magnitude(a))]))
  {
    var s := "rp " + GroupedText(a);
    LowerOfOne(a);
    assert s[..3] == "rp ";
    RupiahText(s, rounded);
    TokensOfOne(a);
  }

  lemma TwoAmounts(a: int, b: int, rounded: string -> Option<int>)
    ensures Stated(TwoAmountText(a, b), rounded) ==
            RangeOf(ValuesOf([NumberText(Magnitude(a)), NumberText(Magnitude(b))]))
  {
    var s := "rp " + GroupedText(a) + " - rp " + GroupedText(b);
    LowerOfTwo(a, b);
    assert s[..3] == "rp ";
    RupiahText(s, rounded);
    TokensOfTwo(a, b);
  }

  /** Two amounts behind texts without digits. */
  lemma TokensOfBoth(p: string, m: nat, between: string, n: nat)
    requires forall i :: 0 <= i < |p| ==> !IsDigit(p[i])
    requires between != "" && !InNumber(between[0]) && forall i :: 0 <= i < |between| ==> !IsDigit(between[i])
    ensures Tokens(p + (NumberText(m) + (between + NumberText(n)))) == [NumberText(m), NumberText(n)]
  {
    var second := NumberText(n);
    TokensAfterText(p, NumberText(m) + (between + second));
    TokensOfNumber(m, between + second);
    TokensAfterText(between, second);
    TokensOfNumber(n, "");
    assert second + "" == second;
  }

  lemma TwoAmountParts(a: int, b: int)
    ensures "rp " + GroupedText(a) + " - rp " + GroupedText(b) ==
            ("rp " + Sign(a)) + (NumberText(Magnitude(a)) + ((" - rp " + Sign(b)) + NumberText(Magnitude(b))))
  {
    GroupedTextIs(a);
    GroupedTextIs(b);
    Regrouped("rp ", Sign(a), NumberText(Magnitude(a)), " - rp ", Sign(b), NumberText(Magnitude(b)));
  }

  lemma Regrouped(p: string, s: string, x: string, q: string, t: string, y: string)
    ensures p + (s + x) + q + (t + y) == (p + s) + (x + ((q + t) + y))
  {
  }

  lemma TokensOfTwo(a: int, b: int)
    ensures Tokens("rp " + GroupedText(a) + " - rp " + GroupedText(b)) ==
            [NumberText(Magnitude(a)), NumberText(Magnitude(b))]
  {
    TwoAmountParts(a, b);
    TokensOfBoth("rp " + Sign(a), Magnitude(a), " - rp " + Sign(b), Magnitude(b));
  }

  lemma ValuesOfOne(m: nat)
    ensures ValuesOf([NumberText(m)]) == if m <= MAX_INT64 then [m] else []
  {
    ParseNumberText(m);
    assert [NumberText(m)][..0] == [];
  }

  lemma ValuesOfTwo(m: nat, n: nat)
    ensures ValuesOf([NumberText(m), NumberText(n)]) ==
            (if m <= MAX_INT64 then [m] else []) + (if n <= MAX_INT64 then [n] else [])
  {
    ParseNumberText(n);
    ValuesOfOne(m);
    assert [NumberText(m), NumberText(n)][..1] == [NumberText(m)];
  }

  // ---- the round trip ----

  lemma RangeOfOne(a: int)
    requires IsInt64(a)
    ensures RangeOf(ValuesOf([NumberText(Magnitude(a))])) == Some((a, a)) <==> a >= 0
  {
    ValuesOfOne(Magnitude(a));
  }

  lemma RangeOfTwo(a: int, b: int)
    requires IsInt64(a) && IsInt64(b)
    ensures RangeOf(ValuesOf([NumberText(Magnitude(a)), NumberText(Magnitude(b))])) == Some((a, b)) <==> 0 <= a <= b
  {
    ValuesOfTwo(Magnitude(a), Magnitude(b));
  }

  lemma RupiahSigns(x: string, y: string)
    ensures "Rp" + " " + x == "Rp " + x
    ensures "Rp" + " " + x + " - " + "Rp" + " " + y == "Rp " + x + " - Rp " + y
  {
    assert "Rp" + " " == "Rp ";
    assert " - " + "Rp" + " " == " - Rp ";
    assert "Rp " + x + " - " + "Rp" + " " + y == "Rp " + x + (" - " + "Rp" + " ") + y;
  }

  lemma RupiahLabel(currency: string, lo: int, hi: int)
    requires currency == "" || currency == "IDR"
    ensures SalaryLabel(currency, Some(lo), Some(hi)) == if lo == hi then OneAmountText(lo) else TwoAmountText(lo, hi)
    ensures SalaryLabel(currency, Some(lo), None) == SalaryLabel(currency, None, Some(lo)) == OneAmountText(lo)
  {
    RupiahSigns(GroupedText(lo), GroupedText(hi));
  }

  /** Parsing the printed rupiah range gives the range back exactly when it is a range of non-negative
      amounts in ascending order; equal bounds are printed as one amount. */
  lemma LabelRoundTrip(currency: string, lo: int, hi: int, rounded: string -> Option<int>)
    requires (currency == "" || currency == "IDR") && IsInt64(lo) && IsInt64(hi)
    ensures Stated(SalaryLabel(currency, Some(lo), Some(hi)), rounded) == Some((lo, hi)) <==> 0 <= lo <= hi
  {
    RupiahLabel(currency, lo, hi);
    if lo == hi {
      OneAmount(lo, rounded);
      RangeOfOne(lo);
    } else {
      TwoAmounts(lo, hi, rounded);
      RangeOfTwo(lo, hi);
    }
  }

  /** A negative bound loses its sign. */
  lemma NegativeBoundIsLost(rounded: string -> Option<int>)
    ensures Stated(SalaryLabel("IDR", Some(-5), Some(10)), rounded) == Some((5, 10))
    ensures Stated(SalaryLabel("IDR", Some(-5), None), rounded) == Some((5, 5))
  {
    RupiahLabel("IDR", -5, 10);
    TwoAmounts(-5, 10, rounded);
    ValuesOfTwo(5, 10);
    OneAmount(-5, rounded);
    ValuesOfOne(5);
  }

  /** A descending range comes back ascending. */
  lemma DescendingRangeIsSwapped(rounded: string -> Option<int>)
    ensures Stated(SalaryLabel("IDR", Some(10), Some(5)), rounded) == Some((5, 10))
  {
    RupiahLabel("IDR", 10, 5);
    TwoAmounts(10, 5, rounded);
    ValuesOfTwo(10, 5);
  }

  /** With one bound, the parsed range is that amount alone, unless it is negative. */
  lemma OneBoundRoundTrip(currency: string, bound: int, rounded: string -> Option<int>)
    requires (currency == "" || currency == "IDR") && IsInt64(bound)
    ensures Stated(SalaryLabel(currency, Some(bound), None), rounded) == Some((bound, bound)) <==> bound >= 0
    ensures SalaryLabel(currency, None, Some(bound)) == SalaryLabel(currency, Some(bound), None)
  {
    RupiahLabel(currency, bound, bound);
    OneAmount(bound, rounded);
    RangeOfOne(bound);
  }

  lemma SkippedWordSaysNothing(s: string, i: nat, k: nat)
    requires i < |SKIPPED_WORDS| && k <= |s| && OccursAt(s, SKIPPED_WORDS[i], k)
    ensures SaysNothing(s)
  {
    assert SKIPPED_WORDS[i] in SKIPPED_WORDS;
  }

  lemma EstimatedLowered(front: string)
    ensures OccursAt(Lower(front + "estimated)"), "estimate", |front|)
  {
    LowerOfBoth(front, "estimated)");
    assert Lower("estimated)") == "estimated)";
    var s, at := Lower(front + "estimated)"), |front|;
    assert s[at..at + 8] == "estimated)"[..8] == "estimate";
  }

  /** An estimate is never taken for stated pay. */
  lemma EstimateIsNotStated(min: int, max: int, rounded: string -> Option<int>)
    ensures Stated(EstimatedSalaryLabel(min, max), rounded) == None
  {
    var front := "~Rp " + GroupedText(min) + " - Rp " + GroupedText(max) + " (";
    assert EstimatedSalaryLabel(min, max) == front + "estimated)";
    EstimatedLowered(front);
    SkippedWordSaysNothing(Lower(front + "estimated)"), 5, |front|);
  }

  lemma StartsWithCode(s: string, code: string)
    requires code in FOREIGN_CODES && |s| > 3 && s[..3] == code && s[3] == ' '
    ensures SaysForeign(s)
  {
    assert |code| == 3 && IsWordChar(code[2]);
    assert s[0..3] == code && s[2] == code[2];
    assert CodeAt(s, code, 0);
  }

  lemma ForeignLabelStarts(currency: string, statedMin: Option<int>, statedMax: Option<int>)
    requires currency != "" && currency != "IDR" && (statedMin.Some? || statedMax.Some?)
    ensures currency + " " <= SalaryLabel(currency, statedMin, statedMax)
  {
  }

  /** Neither is pay in a currency that the parser knows to be foreign. */
  lemma ForeignLabelIsNotStated(currency: string, statedMin: Option<int>, statedMax: Option<int>,
                                rounded: string -> Option<int>)
    requires Lower(currency) in FOREIGN_CODES
    ensures Stated(SalaryLabel(currency, statedMin, statedMax), rounded) == None
  {
    var code, text := Lower(currency), SalaryLabel(currency, statedMin, statedMax);
    assert |code| == 3;
    assert currency != "IDR" by {
      assert Lower("IDR") == "idr";
    }
    if statedMin.Some? || statedMax.Some? {
      ForeignLabelStarts(currency, statedMin, statedMax);
      assert text[..4] == currency + " ";
      var s := Lower(text);
      assert s[..3] == code && s[3] == ' ';
      StartsWithCode(s, code);
    }
  }

  // ---- the shorthand ----

  /** The letters of the shorthand; every skipped word and every foreign code has another one. */
  predicate Short(s: string) {
    forall i :: 0 <= i < |s| ==> s[i] in ['r', 'p', ' ', '-', '.', ',', 'j', 'u', 't', 'a'] || IsDigit(s[i])
  }

  lemma ShortLacks(s: string, word: string, i: nat, k: nat)
    requires Short(s) && k < |word| && word[k] !in ['r', 'p', ' ', '-', '.', ',', 'j', 'u', 't', 'a'] && !IsDigit(word[k])
    ensures !OccursAt(s, word, i)
  {
    if i + |word| <= |s| {
      assert s[i..i + |word|][k] == s[i + k];
    }
  }

  lemma ShortSaysSomething(s: string)
    requires Short(s) && s != ""
    ensures !SaysNothing(s)
  {
    forall word, i: nat | word in SKIPPED_WORDS ensures !OccursAt(s, word, i) {
      ShortLacks(s, word, i, if word == "undisclosed" then 1 else 0);
    }
  }

  /** The place of a letter that no shorthand has. */
  function Strange(code: string): nat {
    if code in ["aud", "usd"] then (if code == "aud" then 2 else 1)
    else if code in ["php", "thb"] then 1
    else if code == "jpy" then 2
    else 0
  }

  lemma ShortIsNotForeign(s: string)
    requires Short(s)
    ensures !SaysForeign(s)
  {
    forall code, i: nat | code in FOREIGN_CODES ensures !OccursAt(s, code, i) {
      ShortLacks(s, code, i, Strange(code));
    }
  }

  lemma {:induction false} DecimalTokensAfterText(p: string, s: string)
    requires forall i :: 0 <= i < |p| ==> !IsDigit(p[i])
    ensures DecimalTokens(p + s) == DecimalTokens(s)
  {
    if p == "" {
      assert p + s == s;
    } else {
      assert (p + s)[1..] == p[1..] + s;
      DecimalTokensAfterText(p[1..], s);
    }
  }

  lemma {:induction false} DigitsEndAt(s: string, i: nat, k: nat)
    requires i <= k <= |s| && (k < |s| ==> !IsDigit(s[k])) && forall j :: i <= j < k ==> IsDigit(s[j])
    ensures DigitsEnd(s, i) == k
    decreases k - i
  {
    if i < k {
      DigitsEndAt(s, i + 1, k);
    }
  }

  lemma DecimalTokensOfDigits(n: nat, rest: string)
    requires rest != "" ==> !InNumber(rest[0])
    ensures DecimalTokens(Digits(n) + rest) == [Digits(n)] + DecimalTokens(rest)
  {
    var t := Digits(n);
    DigitsEndAt(t + rest, 1, |t|);
    assert (t + rest)[..|t|] == t && (t + rest)[|t|..] == rest;
  }

  lemma MillionsOfDigits(n: nat, rounded: string -> Option<int>)
    requires n <= MAX_EXACT_MILLIONS
    ensures MillionsOf(Digits(n), rounded) == Some(n * 1_000_000)
  {
    NatOfDigits(n);
  }

  lemma MillionsInOne(n: nat, rounded: string -> Option<int>)
    requires n <= MAX_EXACT_MILLIONS
    ensures MillionsIn([Digits(n)], rounded) == [n * 1_000_000]
  {
    MillionsOfDigits(n, rounded);
    assert [Digits(n)][..0] == [];
  }

  lemma MillionsInTwo(m: nat, n: nat, rounded: string -> Option<int>)
    requires m <= MAX_EXACT_MILLIONS && n <= MAX_EXACT_MILLIONS
    ensures MillionsIn([Digits(m), Digits(n)], rounded) == [m * 1_000_000, n * 1_000_000]
  {
    MillionsInOne(m, rounded);
    MillionsOfDigits(n, rounded);
    assert [Digits(m), Digits(n)][..1] == [Digits(m)];
  }

  function JutaRange(m: nat, n: nat): string {
    Digits(m) + " - " + Digits(n) + " juta"
  }

  lemma JutaText(front: string)
    requires front != "" && IsDigit(front[|front| - 1])
    ensures SaysRupiah(front + " juta") && SaysMillions(front + " juta")
  {
    var s, i := front + " juta", |front| + 1;
    assert s[i..i + 4] == "juta";
    assert s[i - 1] == ' ' && s[i] == 'j' && s[i + 3] == 'a';
    assert JutaAt(s, i);
  }

  lemma DigitsAreLower(n: nat)
    ensures Lower(Digits(n)) == Digits(n)
  {
  }

  lemma JutaRangeIsLower(m: nat, n: nat)
    ensures Lower(JutaRange(m, n)) == JutaRange(m, n) && Short(JutaRange(m, n))
  {
    DigitsAreLower(m);
    DigitsAreLower(n);
    LowerOfBoth(Digits(m), " - ");
    LowerOfBoth(Digits(m) + " - ", Digits(n));
    LowerOfBoth(Digits(m) + " - " + Digits(n), " juta");
    assert Lower(" - ") == " - " && Lower(" juta") == " juta";
  }

  predicate Wordy(s: string) {
    s != "" && !InNumber(s[0]) && forall i :: 0 <= i < |s| ==> !IsDigit(s[i])
  }

  lemma NoDecimalTokens(end: string)
    requires Wordy(end)
    ensures DecimalTokens(end) == []
  {
    DecimalTokensAfterText(end, "");
    assert end + "" == end;
  }

  lemma LastDecimal(n: nat, end: string)
    requires Wordy(end)
    ensures DecimalTokens(Digits(n) + end) == [Digits(n)]
  {
    NoDecimalTokens(end);
    DecimalTokensOfDigits(n, end);
  }

  lemma FirstDecimal(m: nat, between: string, rest: string)
    requires Wordy(between)
    ensures DecimalTokens(Digits(m) + (between + rest)) == [Digits(m)] + DecimalTokens(rest)
  {
    DecimalTokensAfterText(between, rest);
    DecimalTokensOfDigits(m, between + rest);
  }

  lemma TokensOfJutaRange(m: nat, n: nat)
    ensures DecimalTokens(JutaRange(m, n)) == [Digits(m), Digits(n)]
  {
    assert JutaRange(m, n) == Digits(m) + (" - " + (Digits(n) + " juta"));
    FirstDecimal(m, " - ", Digits(n) + " juta");
    LastDecimal(n, " juta");
  }

  lemma ShortText(s: string, rounded: string -> Option<int>)
    requires Short(s) && s != "" && SaysRupiah(s) && SaysMillions(s)
    ensures StatedIn(s, rounded) == RangeOf(MillionsIn(DecimalTokens(s), rounded))
  {
    ShortSaysSomething(s);
    ShortIsNotForeign(s);
  }

  /** A range in "juta" states the two numbers times a million, the smaller one first. */
  lemma JutaRangeIsExact(m: nat, n: nat, rounded: string -> Option<int>)
    requires m <= MAX_EXACT_MILLIONS && n <= MAX_EXACT_MILLIONS
    ensures Stated(JutaRange(m, n), rounded) ==
            if m <= n then Some((m * 1_000_000, n * 1_000_000)) else Some((n * 1_000_000, m * 1_000_000))
  {
    var front := Digits(m) + " - " + Digits(n);
    JutaRangeIsLower(m, n);
    assert JutaRange(m, n) == front + " juta";
    JutaText(front);
    ShortText(JutaRange(m, n), rounded);
    TokensOfJutaRange(m, n);
    MillionsInTwo(m, n, rounded);
  }

  function JtAmount(n: nat): string {
    "Rp " + Digits(n) + "jt"
  }

  lemma JtAmountLowered(n: nat)
    ensures Lower(JtAmount(n)) == "rp " + Digits(n) + "jt" && Short("rp " + Digits(n) + "jt")
  {
    DigitsAreLower(n);
    LowerOfBoth("Rp ", Digits(n));
    LowerOfBoth("Rp " + Digits(n), "jt");
    assert Lower("Rp ") == "rp " && Lower("jt") == "jt";
  }

  lemma JtText(n: nat)
    ensures SaysMillions("rp " + Digits(n) + "jt")
  {
    var s, i := "rp " + Digits(n) + "jt", 3 + |Digits(n)|;
    assert s[i..i + 2] == "jt";
    assert forall j :: 3 <= j < i ==> s[j] == Digits(n)[j - 3];
    assert DigitRun(s, 3, i) && NumberAt(s, 3, i) && Blanks(s, i, i);
    assert JtAt(s, i);
  }

  lemma TokensOfJt(n: nat)
    ensures DecimalTokens("rp " + Digits(n) + "jt") == [Digits(n)]
  {
    assert "rp " + Digits(n) + "jt" == "rp " + (Digits(n) + "jt");
    DecimalTokensAfterText("rp ", Digits(n) + "jt");
    DecimalTokensOfDigits(n, "jt");
    DecimalTokensAfterText("jt", "");
    assert "jt" + "" == "jt";
  }

  /** An amount in "jt" states that many millions, as both bounds. */
  lemma JtAmountIsExact(n: nat, rounded: string -> Option<int>)
    requires n <= MAX_EXACT_MILLIONS
    ensures Stated(JtAmount(n), rounded) == Some((n * 1_000_000, n * 1_000_000))
  {
    var s := "rp " + Digits(n) + "jt";
    JtAmountLowered(n);
    assert s[..3] == "rp ";
    StartsWithRupiah(s);
    JtText(n);
    ShortText(s, rounded);
    TokensOfJt(n);
    MillionsInOne(n, rounded);
  }
}
