/** What the filters make of the text that a user types. */
module SearchText {
  import opened FeedQuery
  import opened Text

  lemma TrimmedLower(a: string, s: string, b: string)
    requires AllBlank(a) && AllBlank(b)
    ensures Trim(Lower(a + s + b)) == Trim(Lower(s)) && Lower(Trim(a + s + b)) == Lower(Trim(s))
  {
    LowerKeepsPadding(a, s, b);
    TrimIgnoresPadding(a, Lower(s), b);
    TrimIgnoresPadding(a, s, b);
  }

  /** Blanks around the search text make no difference. */
  lemma SearchIgnoresPadding(q: JobQuery, j: Job, a: string, b: string)
    requires AllBlank(a) && AllBlank(b)
    ensures Matches(q.(search := a + q.search + b), j) == Matches(q, j)
  {
    TrimmedLower(a, q.search, b);
  }

  /** Nor around the location. */
  lemma LocationIgnoresPadding(q: JobQuery, j: Job, a: string, b: string)
    requires AllBlank(a) && AllBlank(b)
    ensures Matches(q.(location := a + q.location + b), j) == Matches(q, j)
  {
    TrimmedLower(a, q.location, b);
  }

  lemma SkillTestIgnoresPadding(skill: string, j: Job, a: string, b: string)
    requires AllBlank(a) && AllBlank(b)
    ensures SkillTest(a + skill + b, j) == SkillTest(skill, j)
  {
    TrimmedLower(a, skill, b);
  }

  lemma OneSkillReplaced(skills: seq<string>, i: nat, skill: string, j: Job)
    requires i < |skills| && SkillTest(skill, j) == SkillTest(skills[i], j)
    ensures SkillsTest(skills[i := skill], j) == SkillsTest(skills, j)
  {
    var replaced := skills[i := skill];
    assert replaced[i] == skill;
    if SkillsTest(skills, j) {
      forall s | s in replaced ensures SkillTest(s, j) {
        var k :| 0 <= k < |replaced| && replaced[k] == s;
        assert k != i ==> skills[k] == s;
      }
    }
    if SkillsTest(replaced, j) {
      forall s | s in skills ensures SkillTest(s, j) {
        var k :| 0 <= k < |skills| && skills[k] == s;
        assert k != i ==> replaced[k] == s;
      }
    }
  }

  /** Nor around a skill, such as one that was split off a list at a comma. */
  lemma SkillIgnoresPadding(q: JobQuery, j: Job, i: nat, a: string, b: string)
    requires AllBlank(a) && AllBlank(b) && i < |q.skills|
    ensures Matches(q.(skills := q.skills[i := a + q.skills[i] + b]), j) == Matches(q, j)
  {
    SkillTestIgnoresPadding(q.skills[i], j, a, b);
    OneSkillReplaced(q.skills, i, a + q.skills[i] + b, j);
  }

  lemma {:induction false} SameLettersTrimmed(s: string, t: string)
    requires SameLetters(s, t)
    ensures Trim(Lower(s)) == Trim(Lower(t)) && Lower(Trim(s)) == Lower(Trim(t))
  {
    LowerExactly(s, t);
    TrimLowerCommute(s);
    TrimLowerCommute(t);
  }

  /** The case of the letters makes no difference either, in the query or in the listing. */
  lemma SearchIgnoresCase(q: JobQuery, j: Job, search: string, title: string, company: string)
    requires SameLetters(search, q.search) && SameLetters(title, j.title) && SameLetters(company, j.company)
    ensures SearchTest(q.(search := search), j.(title := title, company := company)) == SearchTest(q, j)
  {
    SameLettersTrimmed(search, q.search);
    LowerExactly(title + " " + company, j.title + " " + j.company);
    assert SameLetters(title + " " + company, j.title + " " + j.company);
  }

  lemma LocationIgnoresCase(q: JobQuery, j: Job, wanted: string, location: string)
    requires SameLetters(wanted, q.location) && SameLetters(location, j.location)
    ensures LocationTest(q.(location := wanted), j.(location := location)) == LocationTest(q, j)
  {
    SameLettersTrimmed(wanted, q.location);
    LowerExactly(location, j.location);
  }

  lemma SkillIgnoresCase(skill: string, other: string, j: Job)
    requires SameLetters(skill, other)
    ensures SkillTest(skill, j) == SkillTest(other, j)
  {
    SameLettersTrimmed(skill, other);
  }

  lemma TypedBecomes(typed: string, part: string, a: string, b: string)
    requires Bare(part) && SameLetters(typed, part) && AllBlank(a) && AllBlank(b)
    ensures Trim(Lower(a + typed + b)) == Lower(part)
  {
    TrimmedLower(a, typed, b);
    SameLettersTrimmed(typed, part);
    TrimLowerCommute(part);
    TrimOfBare(part);
  }

  lemma PartIsContained(before: string, part: string, after: string)
    ensures Contains(Lower(before + part + after), Lower(part))
  {
    LowerOfParts(before + part, after);
    LowerOfParts(before, part);
    ContainsExactly(Lower(before + part + after), Lower(part));
  }

  /** A listing is found by any part of its title, padded and in any case. */
  lemma PartOfTitleFinds(q: JobQuery, j: Job, before: string, part: string, after: string, typed: string, a: string,
                         b: string)
    requires j.title == before + part + after && Bare(part) && SameLetters(typed, part)
    requires AllBlank(a) && AllBlank(b)
    ensures SearchTest(q.(search := a + typed + b), j)
  {
    TypedBecomes(typed, part, a, b);
    PartIsContained(before, part, after + " " + j.company);
    assert j.title + " " + j.company == before + part + (after + " " + j.company);
  }

  lemma TrimOfBare(s: string)
    requires Bare(s)
    ensures Trim(s) == s
  {
    var a, b := TrimDropsBlanks(s);
    assert s == "" + s + "";
    BarePartIsUnique("", s, "", a, Trim(s), b);
  }
}
