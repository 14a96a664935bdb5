/** The four block classifiers of `_layout_chunking`
    (loaders/document_ai_common.py:20-23), written as predicates on the
    block text, with `match` semantics: the pattern must match a prefix. */
module Patterns {
  import opened Wrappers
  import opened Text

  /** The length of the run of digits that starts at `i`. */
  function DigitRun(s: string, i: nat): (n: nat)
    requires i <= |s|
    ensures i + n <= |s|
    ensures forall k :: i <= k < i + n ==> IsDigit(s[k])
    ensures i + n == |s| || !IsDigit(s[i + n])
    decreases |s| - i
  {
    if i < |s| && IsDigit(s[i]) then 1 + DigitRun(s, i + 1) else 0
  }

  /** The length of the run of whitespace that starts at `i`. */
  function SpaceRun(s: string, i: nat): (n: nat)
    requires i <= |s|
    ensures i + n <= |s|
    ensures forall k :: i <= k < i + n ==> IsSpace(s[k])
    ensures i + n == |s| || !IsSpace(s[i + n])
    decreases |s| - i
  {
    if i < |s| && IsSpace(s[i]) then 1 + SpaceRun(s, i + 1) else 0
  }

  lemma {:induction false} DigitRunIs(s: string, i: nat, j: nat)
    requires i <= j <= |s|
    requires forall k :: i <= k < j ==> IsDigit(s[k])
    requires j == |s| || !IsDigit(s[j])
    ensures DigitRun(s, i) == j - i
    decreases j - i
  {
    if i < j {
      DigitRunIs(s, i + 1, j);
    }
  }

  lemma {:induction false} SpaceRunIs(s: string, i: nat, j: nat)
    requires i <= j <= |s|
    requires forall k :: i <= k < j ==> IsSpace(s[k])
    requires j == |s| || !IsSpace(s[j])
    ensures SpaceRun(s, i) == j - i
    decreases j - i
  {
    if i < j {
      SpaceRunIs(s, i + 1, j);
    }
  }

  // ---------------------------------------------------------------------
  // chapter_pattern: ^[A-Z\s]{4,}$

  predicate IsChapterChar(c: char) {
    IsAsciiUpper(c) || IsSpace(c)
  }

  /** A chapter title: four or more characters, every one an upper-case
      letter or whitespace. (`$` may also match before a final newline, but a
      newline is itself in the class, so the test is the same.) */
  predicate IsChapter(s: string) {
    |s| >= 4 && forall k :: 0 <= k < |s| ==> IsChapterChar(s[k])
  }

  // ---------------------------------------------------------------------
  // section_num_pattern: ^\d+$

  /** A bare number: one or more digits and nothing else, except that `$`
      also matches in front of one final newline. */
  predicate IsSectionNumber(s: string) {
    || (|s| >= 1 && AllDigits(s))
    || (|s| >= 2 && s[|s| - 1] == '\n' && AllDigits(s[..|s| - 1]))
  }

  // ---------------------------------------------------------------------
  // section_pattern: ^\d+\s+[A-Za-z].*

  /** A section heading: digits, whitespace, then a letter. Both runs are
      taken whole, as the greedy `\d+` and `\s+` do (a digit is not
      whitespace, so backtracking cannot find another split). */
  predicate IsSectionHeading(s: string) {
    var d := DigitRun(s, 0);
    var w := SpaceRun(s, d);
    d >= 1 && w >= 1 && d + w < |s| && IsAsciiLetter(s[d + w])
  }

  /** The shape the section pattern asks for: digits on [0, i), whitespace
      on [i, j), and a letter at j. */
  predicate SectionSplit(s: string, i: int, j: int) {
    && 1 <= i < j < |s|
    && (forall k :: 0 <= k < i ==> IsDigit(s[k]))
    && (forall k :: i <= k < j ==> IsSpace(s[k]))
    && IsAsciiLetter(s[j])
  }

  /** The section test holds exactly when the text starts with a
      digits-whitespace-letter split. */
  lemma SectionHeadingIff(s: string)
    ensures IsSectionHeading(s) <==> exists i, j :: SectionSplit(s, i, j)
  {
    if IsSectionHeading(s) {
      SectionHeadingHasSplit(s);
    }
    if exists i, j :: SectionSplit(s, i, j) {
      var i, j :| SectionSplit(s, i, j);
      SplitIsSectionHeading(s, i, j);
    }
  }

  lemma SectionHeadingHasSplit(s: string)
    requires IsSectionHeading(s)
    ensures SectionSplit(s, DigitRun(s, 0), DigitRun(s, 0) + SpaceRun(s, DigitRun(s, 0)))
  {
  }

  lemma SplitIsSectionHeading(s: string, i: int, j: int)
    requires SectionSplit(s, i, j)
    ensures IsSectionHeading(s)
  {
    SpaceIsNotDigit(s[i]);
    DigitRunIs(s, 0, i);
    if j < |s| {
      assert !IsSpace(s[j]);
    }
    SpaceRunIs(s, i, j);
  }

  // ---------------------------------------------------------------------
  // header_pattern: ^((Rule\s+)?([1-9]|1[0-9])(\.\d+)+|Rule\s+\d+), IGNORECASE

  /** Where `Rule\s+` ends, when the text starts with it. */
  function RulePrefixEnd(s: string): (r: Option<nat>)
    ensures r.Some? ==> 5 <= r.value <= |s| && StartsWithIgnoringCase(s, "rule")
    ensures r.Some? ==> forall k :: 4 <= k < r.value ==> IsSpace(s[k])
    ensures r.Some? ==> r.value == |s| || !IsSpace(s[r.value])
  {
    if StartsWithIgnoringCase(s, "rule") && SpaceRun(s, 4) >= 1 then Some(4 + SpaceRun(s, 4)) else None
  }

  /** A dot followed by a digit at `p`: where one more `\.\d+` can start. */
  predicate DotDigitAt(s: string, p: nat) {
    p + 1 < |s| && s[p] == '.' && IsDigit(s[p + 1])
  }

  /** Where the greedy `(\.\d+)+` that starts at `p` ends. */
  function DottedEnd(s: string, p: nat): (e: nat)
    requires p <= |s|
    ensures p <= e <= |s|
    ensures !DotDigitAt(s, e)
    ensures DotDigitAt(s, p) ==> p + 2 <= e && IsDigit(s[e - 1]) && (e == |s| || !IsDigit(s[e]))
    ensures !DotDigitAt(s, p) ==> e == p
    decreases |s| - p
  {
    if DotDigitAt(s, p) then DottedEnd(s, p + 1 + DigitRun(s, p + 1)) else p
  }

  /** Where `([1-9]|1[0-9])(\.\d+)+` ends when it matches at `p`, trying the
      one-digit alternative first. */
  function NumberedEnd(s: string, p: nat): (r: Option<nat>)
    requires p <= |s|
    ensures r.Some? ==> p + 3 <= r.value <= |s| && IsDigit(s[r.value - 1])
    ensures r.Some? ==> r.value == |s| || !IsDigit(s[r.value])
    ensures r.Some? ==> '1' <= s[p] <= '9'
  {
    if p < |s| && '1' <= s[p] <= '9' && DotDigitAt(s, p + 1) then Some(DottedEnd(s, p + 1))
    else if p + 1 < |s| && s[p] == '1' && IsDigit(s[p + 1]) && DotDigitAt(s, p + 2) then Some(DottedEnd(s, p + 2))
    else None
  }

  /** `Rule\s+` followed by the dotted alternative. */
  function RuleNumberedEnd(s: string): (r: Option<nat>)
    ensures r.Some? ==> 1 <= r.value <= |s| && IsDigit(s[r.value - 1])
    ensures r.Some? ==> r.value == |s| || !IsDigit(s[r.value])
  {
    var prefix := RulePrefixEnd(s);
    if prefix.Some? then NumberedEnd(s, prefix.value) else None
  }

  /** `Rule\s+\d+`: the last alternative. */
  function RuleDigitsEnd(s: string): (r: Option<nat>)
    ensures r.Some? ==> 1 <= r.value <= |s| && IsDigit(s[r.value - 1])
    ensures r.Some? ==> r.value == |s| || !IsDigit(s[r.value])
  {
    var prefix := RulePrefixEnd(s);
    if prefix.Some? && DigitRun(s, prefix.value) >= 1 then
      var e := prefix.value + DigitRun(s, prefix.value);
      assert IsDigit(s[e - 1]);
      Some(e)
    else None
  }

  /** Where `header_pattern` stops matching, when it matches: the
      alternatives in the order the regex engine tries them, `(Rule\s+)?`
      with the prefix first. */
  function HeaderEnd(s: string): (r: Option<nat>)
    ensures r.Some? ==> 1 <= r.value <= |s| && IsDigit(s[r.value - 1])
    ensures r.Some? ==> r.value == |s| || !IsDigit(s[r.value])
  {
    var dotted := RuleNumberedEnd(s);
    if dotted.Some? then dotted
    else
      var bare := NumberedEnd(s, 0);
      if bare.Some? then bare else RuleDigitsEnd(s)
  }

  /** `header_pattern.match(s).group(1)`: the matched prefix. */
  function HeaderMatch(s: string): (r: Option<string>)
    ensures r.Some? ==> |r.value| <= |s| && r.value == s[..|r.value|]
    ensures r.Some? ==> r.value != [] && IsDigit(r.value[|r.value| - 1])
    ensures r.Some? ==> |r.value| == |s| || !IsDigit(s[|r.value|])
  {
    match HeaderEnd(s)
    case None => None
    case Some(e) => Some(s[..e])
  }

  /** "Rule", whitespace on [4, j), and a digit at j. */
  predicate RuleWordThenDigit(s: string, j: int) {
    && 4 < j < |s|
    && StartsWithIgnoringCase(s, "rule")
    && (forall k :: 4 <= k < j ==> IsSpace(s[k]))
    && IsDigit(s[j])
  }

  /** A number from 1 to 19 followed by a dot and a digit. */
  predicate NumberedLead(s: string) {
    || (|s| >= 3 && '1' <= s[0] <= '9' && s[1] == '.' && IsDigit(s[2]))
    || (|s| >= 4 && s[0] == '1' && IsDigit(s[1]) && s[2] == '.' && IsDigit(s[3]))
  }

  /** The header pattern matches exactly the texts that start with
      "Rule", whitespace and a digit, or with a dotted number whose first
      part is 1 to 19. */
  lemma HeaderMatchIff(s: string)
    ensures HeaderMatch(s).Some? <==> (exists j :: RuleWordThenDigit(s, j)) || NumberedLead(s)
  {
    var prefix := RulePrefixEnd(s);
    if HeaderMatch(s).Some? && !NumberedLead(s) {
      assert prefix.Some?;
      if NumberedEnd(s, prefix.value).Some? {
        assert IsDigit(s[prefix.value]);
      }
      assert RuleWordThenDigit(s, prefix.value);
    }
    if exists j :: RuleWordThenDigit(s, j) {
      var j :| RuleWordThenDigit(s, j);
      SpaceRunIs(s, 4, j);
      assert prefix == Some(j);
    }
  }

  /** A header that starts with "Rule" yields a token that starts with it,
      and the token keeps every digit and dotted part that follows. */
  lemma HeaderMatchOfRule(s: string)
    requires RulePrefixEnd(s).Some? && HeaderMatch(s).Some?
    ensures StartsWithIgnoringCase(HeaderMatch(s).value, "rule")
  {
    var m := HeaderMatch(s).value;
    assert NumberedEnd(s, 0) == None;
    assert forall k :: 0 <= k < 4 ==> m[k] == s[k];
  }

  /** A digit is neither a letter nor whitespace. */
  lemma DigitIsNotSpace(c: char)
    requires IsDigit(c)
    ensures !IsSpace(c) && !IsAsciiLetter(c) && !IsChapterChar(c)
  {
  }

  lemma SpaceIsNotDigit(c: char)
    requires IsSpace(c)
    ensures !IsDigit(c) && c != '.'
  {
  }

  /** A chapter title holds no digit, so none of the other tests holds. */
  lemma ChapterIsNothingElse(s: string)
    requires IsChapter(s)
    ensures !IsSectionHeading(s) && !IsSectionNumber(s) && HeaderMatch(s) == None
  {
    forall k | 0 <= k < |s| ensures !IsDigit(s[k]) {
      if IsDigit(s[k]) {
        DigitIsNotSpace(s[k]);
      }
    }
  }

  /** A text that starts with a digit is a header only in the dotted form. */
  lemma DigitLeadHeader(s: string)
    requires s != [] && IsDigit(s[0])
    ensures HeaderMatch(s).Some? ==> NumberedLead(s)
  {
    DigitIsNotSpace(s[0]);
    assert !SameLetterIgnoringCase(s[0], 'r');
    assert RulePrefixEnd(s) == None;
  }

  /** A section heading is not a bare number and not a rule header. */
  lemma SectionHeadingIsNothingElse(s: string)
    requires IsSectionHeading(s)
    ensures !IsSectionNumber(s) && HeaderMatch(s) == None
  {
    var d := DigitRun(s, 0);
    var w := SpaceRun(s, d);
    DigitLeadHeader(s);
    SpaceIsNotDigit(s[d]);
    assert s[1] != '.';
    assert IsDigit(s[1]) ==> s[2] != '.';
    assert s[..|s| - 1][d] == s[d];
  }

  /** A bare number is not a rule header. */
  lemma SectionNumberIsNotHeader(s: string)
    requires IsSectionNumber(s)
    ensures HeaderMatch(s) == None
  {
    if !AllDigits(s) {
      assert forall k :: 0 <= k < |s| - 1 ==> s[..|s| - 1][k] == s[k];
    }
    assert forall k :: 0 <= k < |s| ==> s[k] != '.';
    DigitLeadHeader(s);
  }

  /** A rule header with a dotted number keeps the whole number. */
  lemma RuleNumberExample()
    ensures HeaderMatch("Rule 9.12 Penalty") == Some("Rule 9.12")
  {
    var s := "Rule 9.12 Penalty";
    assert StartsWithIgnoringCase(s, "rule");
    assert SpaceRun(s, 5) == 0;
    assert RulePrefixEnd(s) == Some(5);
    assert DigitRun(s, 9) == 0;
    assert DigitRun(s, 7) == 2;
    assert DottedEnd(s, 9) == 9;
    assert DottedEnd(s, 6) == 9;
    assert NumberedEnd(s, 5) == Some(9);
    assert HeaderEnd(s) == Some(9);
    assert s[..9] == "Rule 9.12";
  }

  /** A first number above 19 is not a dotted rule number: after "Rule" the
      header falls back to the plain `Rule\s+\d+` alternative. */
  lemma RuleAboveNineteenExample()
    ensures HeaderMatch("Rule 25.3") == Some("Rule 25")
  {
    var s := "Rule 25.3";
    assert StartsWithIgnoringCase(s, "rule");
    assert SpaceRun(s, 5) == 0;
    assert RulePrefixEnd(s) == Some(5);
    assert !DotDigitAt(s, 6);
    assert NumberedEnd(s, 5) == None;
    assert RuleNumberedEnd(s) == None;
    assert NumberedEnd(s, 0) == None;
    assert DigitRun(s, 7) == 0;
    assert DigitRun(s, 5) == 2;
    assert RuleDigitsEnd(s) == Some(7);
    assert s[..7] == "Rule 25";
  }

  /** Without "Rule", a first number above 19 is no header at all. */
  lemma NumberAboveNineteenExample()
    ensures HeaderMatch("20.1 Play") == None
  {
    var s := "20.1 Play";
    assert !SameLetterIgnoringCase(s[0], 'r');
    assert RulePrefixEnd(s) == None;
    assert !DotDigitAt(s, 1);
    assert NumberedEnd(s, 0) == None;
    assert RuleNumberedEnd(s) == None && RuleDigitsEnd(s) == None;
  }
}
