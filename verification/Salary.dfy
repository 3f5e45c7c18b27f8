/** Printing and parsing rupiah pay (backend/internal/feed/service.go, backend/internal/ingest/normalize.go). */
module Salary {
  import opened Options
  import opened Text

  const MAX_INT64 := 9223372036854775807

  predicate IsInt64(n: int) {
    -MAX_INT64 - 1 <= n <= MAX_INT64
  }

  predicate IsDigit(c: char) {
    '0' <= c <= '9'
  }

  predicate AllDigits(s: string) {
    forall i :: 0 <= i < |s| ==> IsDigit(s[i])
  }

  // ---- printing ----

  function Digits(n: nat): (s: string)
    ensures s != "" && AllDigits(s)
  {
    var last := [('0' as int + n % 10) as char];
    if n < 10 then last else Digits(n / 10) + last
  }

  /** Dots between groups of three digits, counted from the right. */
  function Grouping(s: string): string {
    if |s| <= 3 then s else Grouping(s[..|s| - 3]) + "." + s[|s| - 3..]
  }

  function GroupedText(n: int): string {
    if n < 0 then "-" + Grouping(Digits(-n)) else Grouping(Digits(n))
  }

  function Piece(length: nat, i: nat, c: char): string {
    if i > 0 && (length - i) % 3 == 0 then ['.', c] else [c]
  }

  /** The first `n` digits as the printing loop writes them. */
  function Written(s: string, n: nat): string
    requires n <= |s|
  {
    if n == 0 then "" else Written(s, n - 1) + Piece(|s|, n - 1, s[n - 1])
  }

  lemma {:induction false} WrittenOfFront(s: string, n: nat)
    requires |s| > 3 && n <= |s| - 3
    ensures Written(s, n) == Written(s[..|s| - 3], n)
  {
    if n > 0 {
      WrittenOfFront(s, n - 1);
    }
  }

  lemma {:induction false} ShortIsWritten(s: string, n: nat)
    requires n <= |s| <= 3
    ensures Written(s, n) == s[..n]
  {
    if n > 0 {
      ShortIsWritten(s, n - 1);
      assert Piece(|s|, n - 1, s[n - 1]) == [s[n - 1]];
      assert s[..n] == s[..n - 1] + [s[n - 1]];
    }
  }

  lemma OneDotInThree(s: string, w: string)
    requires |s| > 3
    ensures var n := |s|;
      w + Piece(n, n - 3, s[n - 3]) + Piece(n, n - 2, s[n - 2]) + Piece(n, n - 1, s[n - 1]) == w + "." + s[n - 3..]
  {
    var n := |s|;
    assert Piece(n, n - 3, s[n - 3]) == ['.', s[n - 3]];
    assert Piece(n, n - 2, s[n - 2]) == [s[n - 2]];
    assert Piece(n, n - 1, s[n - 1]) == [s[n - 1]];
  }

  lemma WrittenStep(s: string, n: nat)
    requires 0 < n <= |s|
    ensures Written(s, n) == Written(s, n - 1) + Piece(|s|, n - 1, s[n - 1])
  {
  }

  lemma LastThree(s: string)
    requires |s| > 3
    ensures Written(s, |s|) == Written(s, |s| - 3) + "." + s[|s| - 3..]
  {
    WrittenStep(s, |s| - 2);
    WrittenStep(s, |s| - 1);
    WrittenStep(s, |s|);
    OneDotInThree(s, Written(s, |s| - 3));
  }

  lemma {:induction false} WrittenIsGrouping(s: string)
    ensures Written(s, |s|) == Grouping(s)
  {
    if |s| <= 3 {
      ShortIsWritten(s, |s|);
      assert s[..|s|] == s;
    } else {
      var front := s[..|s| - 3];
      WrittenIsGrouping(front);
      assert Written(s, |s|) == Written(front, |front|) + "." + s[|s| - 3..] by {
        LastThree(s);
        WrittenOfFront(s, |s| - 3);
      }
    }
  }

  method Grouped(n: int) returns (text: string)
    ensures text == GroupedText(n)
  {
    var s := if n < 0 then "-" + Digits(-n) else Digits(n);
    assert AllDigits(Digits(if n < 0 then -n else n));
    var neg := s[0] == '-';
    if neg {
      s := s[1..];
    }
    assert s == Digits(if n < 0 then -n else n);
    var b := "";
    for i := 0 to |s|
      invariant b == Written(s, i)
    {
      if i > 0 && (|s| - i) % 3 == 0 {
        b := b + ".";
      }
      b := b + [s[i]];
    }
    WrittenIsGrouping(s);
    return if neg then "-" + b else b;
  }

  function SalaryLabel(currency: string, statedMin: Option<int>, statedMax: Option<int>): string {
    var cur := if currency == "" then "IDR" else currency;
    var sym := if cur == "IDR" then "Rp" else cur;
    if statedMin.Some? && statedMax.Some? && statedMin.value != statedMax.value then
      sym + " " + GroupedText(statedMin.value) + " - " + sym + " " + GroupedText(statedMax.value)
    else if statedMin.Some? then sym + " " + GroupedText(statedMin.value)
    else if statedMax.Some? then sym + " " + GroupedText(statedMax.value)
    else ""
  }

  function EstimatedSalaryLabel(min: int, max: int): string {
    "~Rp " + GroupedText(min) + " - Rp " + GroupedText(max) + " (estimated)"
  }

  // ---- the conditions of the parser, pattern by pattern ----

  predicate IsWordChar(c: char) {
    IsDigit(c) || 'a' <= c <= 'z' || 'A' <= c <= 'Z' || c == '_'
  }

  /** `\b` before position `i`. */
  predicate Boundary(s: string, i: nat)
    requires i <= |s|
  {
    (i > 0 && IsWordChar(s[i - 1])) != (i < |s| && IsWordChar(s[i]))
  }

  predicate IsBlank(c: char) {
    c == ' ' || c == '\t' || c == '\n' || c == '\r' || c as int == 12
  }

  predicate Blanks(s: string, i: nat, k: nat)
    requires k <= |s|
  {
    i <= k && forall j :: i <= j < k ==> IsBlank(s[j])
  }

  predicate DigitRun(s: string, i: nat, k: nat)
    requires k <= |s|
  {
    i < k && forall j :: i <= j < k ==> IsDigit(s[j])
  }

  predicate InNumber(c: char) {
    IsDigit(c) || c == '.' || c == ','
  }

  /** `\s*[\d.,]` from `i`. */
  predicate AmountAt(s: string, i: nat)
    requires i <= |s|
  {
    exists k :: i <= k < |s| && Blanks(s, i, k) && InNumber(s[k])
  }

  /** `\bword(?:\s*[\d.,]|\b)` at `i`. */
  predicate CurrencyAt(s: string, word: string, i: nat)
    requires i <= |s|
  {
    OccursAt(s, word, i) && Boundary(s, i) && (AmountAt(s, i + |word|) || Boundary(s, i + |word|))
  }

  /** `(?:\b|\d)juta\b`, with the word at `i`. */
  predicate JutaAt(s: string, i: nat)
    requires i <= |s|
  {
    OccursAt(s, "juta", i) && (Boundary(s, i) || (i > 0 && IsDigit(s[i - 1]))) && Boundary(s, i + 4)
  }

  /** `\d+(?:[.,]\d+)?` from `i` to `k`. */
  predicate NumberAt(s: string, i: nat, k: nat)
    requires k <= |s|
  {
    DigitRun(s, i, k) ||
    exists m: nat :: i < m < k && DigitRun(s, i, m) && (s[m] == '.' || s[m] == ',') && DigitRun(s, m + 1, k)
  }

  /** `\d+(?:[.,]\d+)?\s*jt\b`, with the word at `i`. */
  predicate JtAt(s: string, i: nat)
    requires i <= |s|
  {
    OccursAt(s, "jt", i) && Boundary(s, i + 2) &&
    exists a: nat, k: nat :: a <= k <= i && NumberAt(s, a, k) && Blanks(s, k, i)
  }

  predicate SaysRupiah(s: string) {
    exists i: nat :: i <= |s| && (CurrencyAt(s, "rp", i) || CurrencyAt(s, "idr", i) || JutaAt(s, i) || JtAt(s, i))
  }

  const FOREIGN_SIGNS := ['$', '\U{20AC}', '\U{A3}', '\U{A5}']

  const FOREIGN_CODES :=
    ["aud", "cad", "cny", "eur", "gbp", "inr", "jpy", "myr", "php", "sgd", "thb", "usd", "vnd"]

  predicate CodeAt(s: string, code: string, i: nat) {
    OccursAt(s, code, i) && Boundary(s, i + |code|)
  }

  predicate SaysForeign(s: string) {
    (exists c :: c in FOREIGN_SIGNS && c in s) ||
    exists code :: code in FOREIGN_CODES && exists i: nat :: i <= |s| && CodeAt(s, code, i)
  }

  predicate SaysMillions(s: string) {
    Contains(s, "juta") || exists i: nat :: i <= |s| && JtAt(s, i)
  }

  const SKIPPED_WORDS :=
    ["nego", "competitive", "disclos", "undisclosed", "kompetitif", "estimate", "based on experience"]

  predicate SaysNothing(s: string) {
    s == "" || exists word :: word in SKIPPED_WORDS && Contains(s, word)
  }

  // ---- numbers ----

  function RunEnd(s: string, i: nat): (k: nat)
    requires i <= |s|
    ensures i <= k <= |s|
    ensures forall j :: i <= j < k ==> InNumber(s[j])
    ensures k < |s| ==> !InNumber(s[k])
    decreases |s| - i
  {
    if i < |s| && InNumber(s[i]) then RunEnd(s, i + 1) else i
  }

  /** The matches of `\d[\d.,]*`, leftmost and longest first. */
  function Tokens(s: string): seq<string>
    decreases |s|
  {
    if s == "" then []
    else if !IsDigit(s[0]) then Tokens(s[1..])
    else [s[..RunEnd(s, 1)]] + Tokens(s[RunEnd(s, 1)..])
  }

  function Strip(s: string): string {
    if s == "" then "" else
    Strip(s[..|s| - 1]) + if s[|s| - 1] == '.' || s[|s| - 1] == ',' then "" else [s[|s| - 1]]
  }

  function NatOf(s: string): (n: int)
    ensures AllDigits(s) ==> n >= 0
  {
    if s == "" then 0 else NatOf(s[..|s| - 1]) * 10 + (s[|s| - 1] as int - '0' as int)
  }

  /** A decimal int64, None on overflow. */
  function ParseInt(s: string): Option<int> {
    if s != "" && AllDigits(s) && NatOf(s) <= MAX_INT64 then Some(NatOf(s)) else None
  }

  function ValuesOf(tokens: seq<string>): seq<int> {
    if tokens == [] then [] else
    var last := ParseInt(Strip(tokens[|tokens| - 1]));
    ValuesOf(tokens[..|tokens| - 1]) + if last.Some? then [last.value] else []
  }

  function DigitsEnd(s: string, i: nat): (k: nat)
    requires i <= |s|
    ensures i <= k <= |s|
    decreases |s| - i
  {
    if i < |s| && IsDigit(s[i]) then DigitsEnd(s, i + 1) else i
  }

  /** The end of `\d+(?:[.,]\d+)?` at the start of the text, as long as it can be. */
  function DecimalEnd(s: string): (k: nat)
    requires s != ""
    ensures 1 <= k <= |s|
  {
    var k := DigitsEnd(s, 1);
    if k + 1 < |s| && (s[k] == '.' || s[k] == ',') && IsDigit(s[k + 1]) then DigitsEnd(s, k + 2) else k
  }

  /** The matches of that pattern, leftmost and longest first. */
  function DecimalTokens(s: string): seq<string>
    decreases |s|
  {
    if s == "" then []
    else if !IsDigit(s[0]) then DecimalTokens(s[1..])
    else [s[..DecimalEnd(s)]] + DecimalTokens(s[DecimalEnd(s)..])
  }

  /** Up to here a million times a whole number is exact in a double: it is at most 2 to the power of 53. */
  const MAX_EXACT_MILLIONS := 9007199254

  /** A million times the token. `rounded` stands for the floating-point reading of fractions and of numbers
      that are too large to be exact; None is a parse error. */
  function MillionsOf(token: string, rounded: string -> Option<int>): Option<int> {
    if token != "" && AllDigits(token) && NatOf(token) <= MAX_EXACT_MILLIONS then Some(NatOf(token) * 1_000_000)
    else rounded(token)
  }

  function MillionsIn(tokens: seq<string>, rounded: string -> Option<int>): seq<int> {
    if tokens == [] then [] else
    var last := MillionsOf(tokens[|tokens| - 1], rounded);
    MillionsIn(tokens[..|tokens| - 1], rounded) + if last.Some? then [last.value] else []
  }

  /** The first and the last value, the smaller one first. */
  function RangeOf(values: seq<int>): Option<(int, int)> {
    if values == [] then None
    else
      var lo, hi := values[0], values[|values| - 1];
      if lo > hi then Some((hi, lo)) else Some((lo, hi))
  }

  predicate SaysPay(s: string) {
    !SaysNothing(s) && !SaysForeign(s) && SaysRupiah(s)
  }

  function StatedIn(s: string, rounded: string -> Option<int>): Option<(int, int)> {
    if !SaysPay(s) then None
    else RangeOf(if SaysMillions(s) then MillionsIn(DecimalTokens(s), rounded) else ValuesOf(Tokens(s)))
  }

  function Stated(text: string, rounded: string -> Option<int>): Option<(int, int)> {
    StatedIn(Lower(text), rounded)
  }

  /** Its token loops. */
  method CollectValues(s: string, rounded: string -> Option<int>) returns (values: seq<int>)
    ensures values == if SaysMillions(s) then MillionsIn(DecimalTokens(s), rounded) else ValuesOf(Tokens(s))
  {
    values := [];
    if SaysMillions(s) {
      var tokens := DecimalTokens(s);
      for i := 0 to |tokens|
        invariant values == MillionsIn(tokens[..i], rounded)
      {
        assert tokens[..i + 1][..i] == tokens[..i];
        var parsed := MillionsOf(tokens[i], rounded);
        if parsed.None? {
          continue;
        }
        values := values + [parsed.value];
      }
      assert tokens[..|tokens|] == tokens;
    } else {
      var tokens := Tokens(s);
      for i := 0 to |tokens|
        invariant values == ValuesOf(tokens[..i])
      {
        assert tokens[..i + 1][..i] == tokens[..i];
        var parsed := ParseInt(Strip(tokens[i]));
        if parsed.None? {
          continue;
        }
        values := values + [parsed.value];
      }
      assert tokens[..|tokens|] == tokens;
    }
  }

  method ParseSalaryIDR(text: string, rounded: string -> Option<int>) returns (stated: Option<(int, int)>)
    ensures stated == Stated(text, rounded)
  {
    var s := Lower(text);
    if s == "" {
      return None;
    }
    for i := 0 to |SKIPPED_WORDS|
      invariant forall k :: 0 <= k < i ==> !Contains(s, SKIPPED_WORDS[k])
    {
      if Contains(s, SKIPPED_WORDS[i]) {
        assert SKIPPED_WORDS[i] in SKIPPED_WORDS;
        return None;
      }
    }
    assert !SaysNothing(s);
    if SaysForeign(s) || !SaysRupiah(s) {
      return None;
    }
    var values := CollectValues(s, rounded);
    if |values| == 0 {
      return None;
    }
    if |values| == 1 {
      return Some((values[0], values[0]));
    }
    var lo, hi := values[0], values[|values| - 1];
    if lo > hi {
      lo, hi := hi, lo;
    }
    return Some((lo, hi));
  }
}
