/** The forms of printed pay, and what the parser takes for pay and what it does not. */
module SalaryForms {
  import opened Options
  import opened Salary
  import opened SalaryTheorems
  import opened Text

  // ---- the printed forms ----

  /** A label is empty exactly when no pay is stated. */
  lemma EmptyLabelExactly(currency: string, statedMin: Option<int>, statedMax: Option<int>)
    ensures SalaryLabel(currency, statedMin, statedMax) == "" <==> statedMin.None? && statedMax.None?
  {
  }

  lemma TwoAmountsJoined(a: string, x: string, y: string)
    ensures a + x + " - " + a + y == a + x + " - " + (a + y)
  {
  }

  /** A range is printed as its lower and its upper amount, in that order; equal bounds as one amount. */
  lemma RangeIsTwoAmounts(currency: string, lo: int, hi: int)
    ensures var text := SalaryLabel(currency, Some(lo), Some(hi));
      if lo == hi then text == SalaryLabel(currency, Some(lo), None)
      else text == SalaryLabel(currency, Some(lo), None) + " - " + SalaryLabel(currency, Some(hi), None)
  {
    if lo != hi {
      var sym := if currency == "" || currency == "IDR" then "Rp" else currency;
      var x, y := GroupedText(lo), GroupedText(hi);
      var front := sym + " " + x + " - ";
      assert front + sym + " " + y == front + (sym + " ") + y;
      TwoAmountsJoined(sym + " ", x, y);
    }
  }

  /** Another currency is printed like rupiah, with its own sign. */
  lemma OtherCurrencyIsPrintedAlike(currency: string, amount: int)
    requires currency != "" && currency != "IDR"
    ensures "Rp" + SalaryLabel(currency, Some(amount), None)[|currency|..] == SalaryLabel("IDR", Some(amount), None)
    ensures currency <= SalaryLabel(currency, Some(amount), None)
  {
    var text := SalaryLabel(currency, Some(amount), None);
    assert text == currency + (" " + GroupedText(amount));
    assert text[|currency|..] == " " + GroupedText(amount);
    RupiahSigns(GroupedText(amount), "");
    assert "Rp" + (" " + GroupedText(amount)) == "Rp" + " " + GroupedText(amount);
  }

  /** An estimate reads like the label of the same range, marked at both ends. */
  lemma EstimateIsAMarkedRange(min: int, max: int)
    requires min != max
    ensures EstimatedSalaryLabel(min, max) == "~" + SalaryLabel("IDR", Some(min), Some(max)) + " (estimated)"
  {
    RupiahLabel("IDR", min, max);
    var x, y := GroupedText(min), GroupedText(max);
    assert "~Rp " == "~" + "Rp ";
    assert "~" + "Rp " + x + " - Rp " + y + " (estimated)" == "~" + ("Rp " + x + " - Rp " + y) + " (estimated)";
  }

  /** Grouped digits have a dot after each third digit from the right, and nowhere else. */
  lemma {:induction false} DotsExactly(s: string, k: nat)
    requires AllDigits(s) && k < |Grouping(s)|
    ensures Grouping(s)[|Grouping(s)| - 1 - k] == '.' <==> k % 4 == 3
  {
    if |s| > 3 {
      var front, last := Grouping(s[..|s| - 3]), s[|s| - 3..];
      assert Grouping(s) == front + "." + last && |last| == 3;
      if k >= 4 {
        DotsExactly(s[..|s| - 3], k - 4);
        assert Grouping(s)[|Grouping(s)| - 1 - k] == front[|front| - 1 - (k - 4)];
      } else if k < 3 {
        assert Grouping(s)[|Grouping(s)| - 1 - k] == last[2 - k];
      }
    }
  }

  /** Numbers are written without leading zeros. */
  lemma {:induction false} NoLeadingZero(n: nat)
    ensures Digits(n)[0] == '0' <==> n == 0
  {
    if n >= 10 {
      NoLeadingZero(n / 10);
      assert Digits(n)[0] == Digits(n / 10)[0];
    }
  }

  // ---- what is not pay ----

  /** These words, in any case, mean that no pay is stated. */
  lemma SkippedExactly(s: string)
    ensures SaysNothing(s) <==>
      || s == ""
      || Contains(s, "nego") || Contains(s, "competitive") || Contains(s, "kompetitif") || Contains(s, "estimate")
      || Contains(s, "disclos") || Contains(s, "undisclosed") || Contains(s, "based on experience")
  {
    assert SKIPPED_WORDS[0] == "nego" && SKIPPED_WORDS[1] == "competitive" && SKIPPED_WORDS[2] == "disclos";
    assert SKIPPED_WORDS[3] == "undisclosed" && SKIPPED_WORDS[4] == "kompetitif" && SKIPPED_WORDS[5] == "estimate";
    assert SKIPPED_WORDS[6] == "based on experience";
    forall word | word in ["nego", "competitive", "disclos", "undisclosed", "kompetitif", "estimate", "based on experience"]
      ensures word in SKIPPED_WORDS
    {
    }
  }

  lemma SkippedIsNotStated(text: string, rounded: string -> Option<int>)
    requires var s := Lower(text);
      || Contains(s, "nego") || Contains(s, "competitive") || Contains(s, "kompetitif") || Contains(s, "estimate")
      || Contains(s, "disclos") || Contains(s, "undisclosed") || Contains(s, "based on experience")
    ensures Stated(text, rounded) == None
  {
    SkippedExactly(Lower(text));
  }

  /** A word may end before this text. */
  predicate EndsAWord(b: string) {
    b == "" || !(b[0] == '_' || 'a' <= b[0] <= 'z' || 'A' <= b[0] <= 'Z' || '0' <= b[0] <= '9')
  }

  /** Nor is text with the sign of the dollar, the euro, the pound or the yen, or with one of these codes at the end
      of a word. */
  lemma ForeignExactly(s: string)
    ensures SaysForeign(s) <==>
      || '$' in s || '\U{20AC}' in s || '\U{A3}' in s || '\U{A5}' in s
      || exists a, b, code ::
           && s == a + code + b && EndsAWord(b)
           && code in {"aud", "cad", "cny", "eur", "gbp", "inr", "jpy", "myr", "php", "sgd", "thb", "usd", "vnd"}
  {
    assert FOREIGN_SIGNS[0] == '$' && FOREIGN_SIGNS[1] == '\U{20AC}';
    assert FOREIGN_SIGNS[2] == '\U{A3}' && FOREIGN_SIGNS[3] == '\U{A5}';
    if code, i: nat :| code in FOREIGN_CODES && i <= |s| && CodeAt(s, code, i) {
      CodeEndsAWord(s, code, i);
    }
    forall a: string, b: string, code: string
      | s == a + code + b && EndsAWord(b) && code in FOREIGN_CODES
      ensures SaysForeign(s)
    {
      CodeIsAt(a, code, b);
    }
  }

  lemma CodesAreWords(code: string)
    requires code in FOREIGN_CODES
    ensures |code| == 3 && IsWordChar(code[2])
  {
  }

  lemma CodeEndsAWord(s: string, code: string, i: nat)
    requires code in FOREIGN_CODES && i <= |s| && CodeAt(s, code, i)
    ensures s == s[..i] + code + s[i + 3..] && EndsAWord(s[i + 3..])
  {
    CodesAreWords(code);
    assert s[i + 2] == s[i..i + 3][2];
  }

  lemma CodeIsAt(a: string, code: string, b: string)
    requires code in FOREIGN_CODES && EndsAWord(b)
    ensures CodeAt(a + code + b, code, |a|)
  {
    CodesAreWords(code);
    var s := a + code + b;
    assert s[|a| + 2] == code[2];
    assert b != "" ==> s[|a| + 3] == b[0];
  }

  // ---- what is pay ----

  /** The letters of a currency word, and the characters of a number. */
  predicate Amounts(s: string) {
    forall i :: 0 <= i < |s| ==> s[i] in ['r', 'p', 'i', 'd', ' '] || InNumber(s[i])
  }

  lemma AmountsLack(s: string, word: string, i: nat, k: nat)
    requires Amounts(s) && k < |word| && word[k] !in ['r', 'p', 'i', 'd', ' '] && !InNumber(word[k])
    ensures !OccursAt(s, word, i)
  {
    if i + |word| <= |s| {
      assert s[i..i + |word|][k] == s[i + k];
    }
  }

  lemma AmountsSayPay(s: string)
    requires Amounts(s) && s != ""
    ensures !SaysNothing(s) && !SaysForeign(s) && !SaysMillions(s)
  {
    forall word, i: nat | word in SKIPPED_WORDS ensures !OccursAt(s, word, i) {
      AmountsLack(s, word, i, if word == "disclos" then 3 else 0);
    }
    forall code, i: nat | code in FOREIGN_CODES ensures !OccursAt(s, code, i) {
      AmountsLack(s, code, i, if code in ["inr", "php"] then 1 else 0);
    }
    forall i: nat ensures !OccursAt(s, "juta", i) && !OccursAt(s, "jt", i) {
      AmountsLack(s, "juta", i, 0);
      AmountsLack(s, "jt", i, 0);
    }
  }

  lemma StartsWithWord(s: string, word: string)
    requires (word == "rp" || word == "idr") && |word| < |s| && s[..|word|] == word
    requires s[|word|] == ' ' || InNumber(s[|word|])
    ensures SaysRupiah(s)
  {
    assert s[0..|word|] == word;
    assert s[|word| - 1] == word[|word| - 1] && s[0] == word[0];
    if InNumber(s[|word|]) {
      assert Blanks(s, |word|, |word|);
      assert AmountAt(s, |word|);
    }
    assert CurrencyAt(s, word, 0);
  }

  lemma AmountsAreRead(word: string, rest: string, rounded: string -> Option<int>)
    requires (word == "rp" || word == "idr") && rest != "" && (rest[0] == ' ' || InNumber(rest[0])) && Amounts(word + rest)
    ensures StatedIn(word + rest, rounded) == RangeOf(ValuesOf(Tokens(rest)))
  {
    AmountsSayPay(word + rest);
    assert (word + rest)[..|word|] == word && (word + rest)[|word|] == rest[0];
    StartsWithWord(word + rest, word);
    TokensAfterText(word, rest);
  }

  lemma OneValue(t: string)
    requires Strip(t) != "" && AllDigits(Strip(t))
    ensures var n := NatOf(Strip(t));
      RangeOf(ValuesOf([t])) == if n <= 9223372036854775807 then Some((n, n)) else None
  {
    assert [t][..0] == [];
  }

  /** A digit, followed by digits, dots and commas. */
  predicate Figures(t: string) {
    t != "" && '0' <= t[0] <= '9' && forall i :: 0 <= i < |t| ==> '0' <= t[i] <= '9' || t[i] == '.' || t[i] == ','
  }

  /** An amount behind "Rp" or "IDR", in any case and with or without a space, is read with its dots and commas
      dropped, as both bounds; one that exceeds 64 bits is not pay. */
  lemma AmountIsRead(word: string, space: string, t: string, rounded: string -> Option<int>)
    requires (Lower(word) == "rp" || Lower(word) == "idr") && (space == "" || space == " ")
    requires Figures(t)
    ensures var n := NatOf(Strip(t));
      Stated(word + space + t, rounded) == if n <= 9223372036854775807 then Some((n, n)) else None
  {
    NumberIsInNumber(t);
    AmountLowered(word, space, t);
    AmountIsReadIn(Lower(word), space, t, rounded);
  }

  lemma AmountIsReadIn(w: string, space: string, t: string, rounded: string -> Option<int>)
    requires (w == "rp" || w == "idr") && (space == "" || space == " ") && Amounts(w + space + t)
    requires t != "" && IsDigit(t[0]) && forall i :: 0 <= i < |t| ==> InNumber(t[i])
    ensures var n := NatOf(Strip(t));
      StatedIn(w + space + t, rounded) == if n <= 9223372036854775807 then Some((n, n)) else None
  {
    SpacedAmount(space, t);
    Assemble(w, space, t);
    AmountsAreRead(w, space + t, rounded);
    OnlyDigitsAreLeft(t);
    OneValue(t);
  }

  lemma NumberIsInNumber(t: string)
    requires Figures(t)
    ensures IsDigit(t[0]) && forall i :: 0 <= i < |t| ==> InNumber(t[i])
  {
  }

  lemma Assemble(a: string, b: string, c: string)
    ensures a + b + c == a + (b + c)
  {
  }

  lemma SpacedAmount(space: string, t: string)
    requires space == "" || space == " "
    requires t != "" && IsDigit(t[0]) && forall i :: 0 <= i < |t| ==> InNumber(t[i])
    ensures var rest := space + t;
      rest != "" && (rest[0] == ' ' || InNumber(rest[0])) && Tokens(rest) == [t]
  {
    TokensAfterText(space, t);
    TokenOfAll(t);
  }

  lemma AmountLowered(word: string, space: string, t: string)
    requires (Lower(word) == "rp" || Lower(word) == "idr") && (space == "" || space == " ")
    requires forall i :: 0 <= i < |t| ==> InNumber(t[i])
    ensures Lower(word + space + t) == Lower(word) + space + t && Amounts(Lower(word) + space + t)
  {
    LowerOfBoth(word + space, t);
    LowerOfBoth(word, space);
    assert Lower(space) == space && Lower(t) == t;
  }

  lemma TokenOfAll(t: string)
    requires t != "" && IsDigit(t[0]) && forall i :: 0 <= i < |t| ==> InNumber(t[i])
    ensures Tokens(t) == [t]
  {
    RunEndsAt(t, 1, |t|);
    assert t[..|t|] == t && t[|t|..] == "";
  }

  lemma {:induction false} OnlyDigitsAreLeft(t: string)
    requires forall i :: 0 <= i < |t| ==> InNumber(t[i])
    ensures AllDigits(Strip(t)) && (t != "" && IsDigit(t[0]) ==> Strip(t) != "")
  {
    if t != "" {
      OnlyDigitsAreLeft(t[..|t| - 1]);
    }
  }

  /** A whole number in "juta" or "jt", with or without a space and with no other currency word. */
  lemma ShorthandIsRead(n: nat, space: string, word: string, rounded: string -> Option<int>)
    requires n <= 9007199254 && space in ["", " "] && word in ["juta", "jt"]
    ensures Stated(Digits(n) + space + word, rounded) == Some((n * 1_000_000, n * 1_000_000))
  {
    var s, end := Digits(n) + space + word, space + word;
    assert s == Digits(n) + end;
    LowerOfBoth(Digits(n), end);
    DigitsAreLower(n);
    assert Lower(end) == end && Wordy(end) && Short(s);
    ShorthandSays(n, space, word);
    ShortText(s, rounded);
    LastDecimal(n, end);
    MillionsInOne(n, rounded);
  }

  /** A number with a fraction in "juta" is one number: it states what the floating-point reading makes of it. */
  lemma FractionIsRead(m: nat, comma: char, n: nat, rounded: string -> Option<int>)
    requires comma == '.' || comma == ','
    ensures var number := Digits(m) + [comma] + Digits(n);
      Stated(number + " juta", rounded) ==
        if rounded(number).None? then None else Some((rounded(number).value, rounded(number).value))
  {
    var number := Digits(m) + [comma] + Digits(n);
    var s := number + " juta";
    FractionLowered(m, comma, n);
    JutaText(number);
    ShortText(s, rounded);
    FractionToken(m, comma, n);
    assert number[|Digits(m)|] == comma;
    assert [number][..0] == [];
  }

  lemma FractionLowered(m: nat, comma: char, n: nat)
    requires comma == '.' || comma == ','
    ensures var s := Digits(m) + [comma] + Digits(n) + " juta"; Lower(s) == s && Short(s)
  {
    LowerOfBoth(Digits(m) + [comma] + Digits(n), " juta");
    LowerOfBoth(Digits(m) + [comma], Digits(n));
    LowerOfBoth(Digits(m), [comma]);
    DigitsAreLower(m);
    DigitsAreLower(n);
    assert Lower(" juta") == " juta" && Lower([comma]) == [comma];
  }

  lemma FractionParts(a: string, comma: char, b: string, rest: string)
    requires AllDigits(a) && AllDigits(b) && b != "" && rest != ""
    ensures var s := a + [comma] + b + rest; var k := |a| + 1 + |b|;
      && (forall i :: 0 <= i < |a| ==> IsDigit(s[i])) && s[|a|] == comma
      && (forall i :: |a| < i < k ==> IsDigit(s[i])) && s[k] == rest[0]
  {
    var s := a + [comma] + b + rest;
    assert forall i :: |a| < i < |a| + 1 + |b| ==> s[i] == b[i - |a| - 1];
  }

  lemma FractionEnd(a: string, comma: char, b: string, rest: string)
    requires a != "" && b != "" && rest != "" && AllDigits(a) && AllDigits(b) && !IsDigit(rest[0])
    requires comma == '.' || comma == ','
    ensures DecimalEnd(a + [comma] + b + rest) == |a| + 1 + |b|
  {
    var s := a + [comma] + b + rest;
    FractionParts(a, comma, b, rest);
    DigitsEndAt(s, 1, |a|);
    DigitsEndAt(s, |a| + 2, |a| + 1 + |b|);
  }

  lemma FirstDecimalToken(number: string, rest: string)
    requires number != "" && IsDigit(number[0]) && DecimalEnd(number + rest) == |number|
    ensures DecimalTokens(number + rest) == [number] + DecimalTokens(rest)
  {
    assert (number + rest)[..|number|] == number && (number + rest)[|number|..] == rest;
  }

  lemma FractionToken(m: nat, comma: char, n: nat)
    requires comma == '.' || comma == ','
    ensures var number := Digits(m) + [comma] + Digits(n); DecimalTokens(number + " juta") == [number]
  {
    FractionEnd(Digits(m), comma, Digits(n), " juta");
    FirstDecimalToken(Digits(m) + [comma] + Digits(n), " juta");
    NoDecimalTokens(" juta");
  }

  lemma ShorthandSays(n: nat, space: string, word: string)
    requires space in ["", " "] && word in ["juta", "jt"]
    ensures var s := Digits(n) + space + word; SaysRupiah(s) && SaysMillions(s)
  {
    var d := Digits(n);
    var s, i := d + space + word, |d + space|;
    assert s[i..] == word && s[i..i + |word|] == word;
    assert s[|s| - 1] == word[|word| - 1] && s[i] == 'j';
    assert forall j :: 0 <= j < |d| ==> s[j] == d[j];
    assert i > 0 && s[i - 1] == (d + space)[i - 1];
    if word == "juta" {
      assert JutaAt(s, i);
    } else {
      assert DigitRun(s, 0, |d|) && NumberAt(s, 0, |d|) && Blanks(s, |d|, i);
      assert JtAt(s, i);
    }
  }
}
