/** ASCII text: lower-casing, trimming, substring search and an order on titles. */
module Text {

  function LowerChar(c: char): char {
    if 'A' <= c <= 'Z' then (c as int + 32) as char else c
  }

  function Lower(s: string): (r: string)
    ensures |r| == |s| && forall i :: 0 <= i < |s| ==> r[i] == LowerChar(s[i])
  {
    seq(|s|, i requires 0 <= i < |s| => LowerChar(s[i]))
  }

  predicate IsSpace(c: char) {
    c == ' ' || 9 <= c as int <= 13
  }

  function TrimLeft(s: string): string {
    if s != "" && IsSpace(s[0]) then TrimLeft(s[1..]) else s
  }

  function TrimRight(s: string): string {
    if s != "" && IsSpace(s[|s| - 1]) then TrimRight(s[..|s| - 1]) else s
  }

  function Trim(s: string): string {
    TrimRight(TrimLeft(s))
  }

  lemma {:induction false} TrimLeftLower(s: string)
    ensures TrimLeft(Lower(s)) == Lower(TrimLeft(s))
  {
    if s != "" && IsSpace(s[0]) {
      assert Lower(s)[1..] == Lower(s[1..]);
      TrimLeftLower(s[1..]);
    }
  }

  lemma {:induction false} TrimRightLower(s: string)
    ensures TrimRight(Lower(s)) == Lower(TrimRight(s))
  {
    if s != "" && IsSpace(s[|s| - 1]) {
      assert Lower(s)[..|s| - 1] == Lower(s[..|s| - 1]);
      TrimRightLower(s[..|s| - 1]);
    }
  }

  /** Go trims the lower-cased text, the SQL path lower-cases the trimmed text. */
  lemma TrimLowerCommute(s: string)
    ensures Trim(Lower(s)) == Lower(Trim(s))
  {
    TrimLeftLower(s);
    TrimRightLower(TrimLeft(s));
  }

  /** The characters that TrimSpace drops: space, tab, newline, vertical tab, form feed, carriage return. */
  predicate Blank(c: char) {
    c as int in {32, 9, 10, 11, 12, 13}
  }

  predicate AllBlank(s: string) {
    forall i :: 0 <= i < |s| ==> Blank(s[i])
  }

  /** The text neither starts nor ends with a blank. */
  predicate Bare(s: string) {
    s != "" ==> !Blank(s[0]) && !Blank(s[|s| - 1])
  }

  lemma {:induction false} TrimLeftSplits(s: string) returns (a: string)
    ensures s == a + TrimLeft(s) && AllBlank(a)
    ensures TrimLeft(s) != "" ==> !Blank(TrimLeft(s)[0])
  {
    if s != "" && IsSpace(s[0]) {
      var b := TrimLeftSplits(s[1..]);
      a := [s[0]] + b;
      assert s == [s[0]] + s[1..];
    } else {
      a := "";
    }
  }

  lemma {:induction false} TrimRightSplits(s: string) returns (b: string)
    ensures s == TrimRight(s) + b && AllBlank(b)
    ensures TrimRight(s) != "" ==> !Blank(TrimRight(s)[|TrimRight(s)| - 1])
  {
    if s != "" && IsSpace(s[|s| - 1]) {
      var a := TrimRightSplits(s[..|s| - 1]);
      b := a + [s[|s| - 1]];
      assert s == s[..|s| - 1] + [s[|s| - 1]];
    } else {
      b := "";
    }
  }

  /** Trimming drops blanks at both ends, all of them and nothing else. */
  lemma TrimDropsBlanks(s: string) returns (a: string, b: string)
    ensures s == a + Trim(s) + b && AllBlank(a) && AllBlank(b) && Bare(Trim(s))
  {
    a := TrimLeftSplits(s);
    b := TrimRightSplits(TrimLeft(s));
    assert s == a + (Trim(s) + b);
    if Trim(s) != "" {
      assert TrimLeft(s)[0] == Trim(s)[0];
    }
  }

  lemma BareEnds(a: string, s: string, b: string)
    requires Bare(s) && s != ""
    ensures !Blank((a + s + b)[|a|]) && !Blank((a + s + b)[|a| + |s| - 1])
  {
  }

  lemma PaddingIsBlank(a: string, s: string, b: string)
    requires AllBlank(a) && AllBlank(b)
    ensures forall i :: 0 <= i < |a| + |s| + |b| && !(|a| <= i < |a| + |s|) ==> Blank((a + s + b)[i])
  {
    forall i | |a| + |s| <= i < |a| + |s| + |b| ensures Blank((a + s + b)[i]) {
      assert (a + s + b)[i] == b[i - |a| - |s|];
    }
  }

  /** That determines the result. */
  lemma BarePartIsUnique(a: string, s: string, b: string, c: string, t: string, d: string)
    requires AllBlank(a) && AllBlank(b) && AllBlank(c) && AllBlank(d) && Bare(s) && Bare(t)
    requires a + s + b == c + t + d
    ensures s == t
  {
    var whole := a + s + b;
    PaddingIsBlank(a, s, b);
    PaddingIsBlank(c, t, d);
    if s != "" {
      BareEnds(a, s, b);
    }
    if t != "" {
      BareEnds(c, t, d);
    }
    assert s == whole[|a|..|a| + |s|] && t == whole[|c|..|c| + |t|];
  }

  /** Padding makes no difference to the trimmed text. */
  lemma TrimIgnoresPadding(a: string, s: string, b: string)
    requires AllBlank(a) && AllBlank(b)
    ensures Trim(a + s + b) == Trim(s)
  {
    var c, d := TrimDropsBlanks(s);
    var e, f := TrimDropsBlanks(a + s + b);
    assert a + s + b == (a + c) + Trim(s) + (d + b);
    BarePartIsUnique(a + c, Trim(s), d + b, e, Trim(a + s + b), f);
  }

  lemma LowerOfParts(a: string, b: string)
    ensures Lower(a + b) == Lower(a) + Lower(b)
  {
  }

  /** Nor does lower-casing touch the padding. */
  lemma LowerKeepsPadding(a: string, s: string, b: string)
    requires AllBlank(a) && AllBlank(b)
    ensures Lower(a + s + b) == a + Lower(s) + b
  {
    LowerOfParts(a + s, b);
    LowerOfParts(a, s);
    assert Lower(a) == a && Lower(b) == b;
  }

  /** The same letter in either case, or the same character. */
  predicate SameLetter(c: char, d: char) {
    c == d || ('a' <= c <= 'z' && c as int - 'a' as int == d as int - 'A' as int) ||
    ('a' <= d <= 'z' && d as int - 'a' as int == c as int - 'A' as int)
  }

  predicate SameLetters(s: string, t: string) {
    |s| == |t| && forall i :: 0 <= i < |s| ==> SameLetter(s[i], t[i])
  }

  /** Lower-casing identifies exactly the texts that differ in case only, and leaves lower-case text alone. */
  lemma LowerExactly(s: string, t: string)
    ensures Lower(s) == Lower(t) <==> SameLetters(s, t)
    ensures SameLetters(s, Lower(s)) && forall i :: 0 <= i < |s| ==> !('A' <= Lower(s)[i] <= 'Z')
  {
    if Lower(s) == Lower(t) {
      forall i | 0 <= i < |s| ensures SameLetter(s[i], t[i]) {
        assert Lower(s)[i] == Lower(t)[i];
      }
    }
  }

  predicate OccursAt(hay: string, needle: string, i: nat) {
    i + |needle| <= |hay| && hay[i..i + |needle|] == needle
  }

  predicate Contains(hay: string, needle: string) {
    exists i: nat :: i <= |hay| && OccursAt(hay, needle, i)
  }

  lemma ContainsExactly(hay: string, needle: string)
    ensures Contains(hay, needle) <==> exists a, b :: hay == a + needle + b
  {
    if Contains(hay, needle) {
      var i: nat :| i <= |hay| && OccursAt(hay, needle, i);
      assert hay == hay[..i] + needle + hay[i + |needle|..];
    }
    forall a, b | hay == a + needle + b ensures Contains(hay, needle) {
      assert OccursAt(hay, needle, |a|);
    }
  }

  function FindFrom(hay: string, needle: string, i: nat): nat
    requires i <= |hay| + 1
    decreases |hay| + 1 - i
  {
    if i == |hay| + 1 then 0
    else if OccursAt(hay, needle, i) then i + 1
    else FindFrom(hay, needle, i + 1)
  }

  /** SQL's strpos: the one-based position of the first occurrence, or 0. */
  function StrPos(hay: string, needle: string): nat {
    FindFrom(hay, needle, 0)
  }

  lemma {:induction false} FindFromContains(hay: string, needle: string, i: nat)
    requires i <= |hay| + 1
    ensures FindFrom(hay, needle, i) > 0 <==> exists k: nat :: i <= k <= |hay| && OccursAt(hay, needle, k)
    decreases |hay| + 1 - i
  {
    if i <= |hay| && !OccursAt(hay, needle, i) {
      FindFromContains(hay, needle, i + 1);
    }
  }

  lemma StrPosContains(hay: string, needle: string)
    ensures StrPos(hay, needle) > 0 <==> Contains(hay, needle)
  {
    FindFromContains(hay, needle, 0);
  }

  // ---- the order of titles and keys ----

  predicate Before(a: string, b: string)
    decreases |a|
  {
    b != "" && (a == "" || a[0] < b[0] || (a[0] == b[0] && Before(a[1..], b[1..])))
  }

  lemma {:induction false} BeforeIsTotal(a: string, b: string)
    ensures a == b || Before(a, b) || Before(b, a)
    ensures !(Before(a, b) && Before(b, a)) && (a == b ==> !Before(a, b))
    decreases |a|
  {
    if a != "" && b != "" && a[0] == b[0] {
      BeforeIsTotal(a[1..], b[1..]);
      assert a == [a[0]] + a[1..] && b == [b[0]] + b[1..];
    }
  }

  lemma {:induction false} BeforeIsTransitive(a: string, b: string, c: string)
    requires Before(a, b) && Before(b, c)
    ensures Before(a, c)
    decreases |a|
  {
    if a != "" && a[0] == b[0] == c[0] {
      BeforeIsTransitive(a[1..], b[1..], c[1..]);
    }
  }

  /** The text is a proper prefix, or smaller at the first difference. */
  predicate SmallerAt(a: string, b: string, k: nat) {
    k <= |a| && k < |b| && a[..k] == b[..k] && (k == |a| || a[k] < b[k])
  }

  lemma SameFirstChar(a: string, b: string, k: nat)
    requires a != "" && b != "" && k <= |a| && k <= |b| && a[..k] == b[..k]
    ensures k > 0 ==> a[0] == b[0]
  {
    assert k > 0 ==> a[..k][0] == a[0] && b[..k][0] == b[0];
  }

  lemma {:induction false} BeforeIsLexicographic(a: string, b: string)
    ensures Before(a, b) <==> exists k: nat :: SmallerAt(a, b, k)
    decreases |a|
  {
    if b == "" {
    } else if a == "" {
      assert SmallerAt(a, b, 0);
    } else if a[0] == b[0] {
      BeforeIsLexicographic(a[1..], b[1..]);
      if k: nat :| SmallerAt(a[1..], b[1..], k) {
        assert a[..k + 1] == [a[0]] + a[1..][..k] && b[..k + 1] == [b[0]] + b[1..][..k];
        assert SmallerAt(a, b, k + 1);
      }
      forall k: nat | SmallerAt(a, b, k) ensures SmallerAt(a[1..], b[1..], k - 1) {
        assert k > 0;
        assert a[1..][..k - 1] == a[..k][1..] && b[1..][..k - 1] == b[..k][1..];
      }
    } else {
      assert a[0] < b[0] ==> SmallerAt(a, b, 0);
      forall k: nat | SmallerAt(a, b, k) ensures k == 0 {
        SameFirstChar(a, b, k);
      }
    }
  }
}
