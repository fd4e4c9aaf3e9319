/**
 * Section headers of the resume parser: which stripped lines open a section,
 * and the fixed, ordered rules that name it.
 */
module Headers {
  import opened Wrappers
  import opened Text

  // ================================================================ header detection

  /**
   * The twelve header patterns, each a list of alternatives. An alternative is
   * a list of upper-case words that the regex separates by `\s+`; every
   * pattern is anchored at the start of the line and matched ignoring case.
   */
  const SectionPatterns: seq<seq<seq<string>>> := [
    [["PROFESSIONAL", "SUMMARY"], ["SUMMARY"], ["PROFILE"], ["OBJECTIVE"]],
    [["WORK", "EXPERIENCE"], ["EXPERIENCE"], ["EMPLOYMENT", "HISTORY"], ["PROFESSIONAL", "EXPERIENCE"]],
    [["EDUCATION"], ["ACADEMIC", "BACKGROUND"], ["ACADEMIC", "QUALIFICATIONS"]],
    [["SKILLS"], ["TECHNICAL", "SKILLS"], ["CORE", "COMPETENCIES"], ["EXPERTISE"]],
    [["CERTIFICATIONS"], ["CERTIFICATES"], ["PROFESSIONAL", "CERTIFICATIONS"]],
    [["PROJECTS"], ["KEY", "PROJECTS"], ["NOTABLE", "PROJECTS"]],
    [["AWARDS"], ["HONORS"], ["ACHIEVEMENTS"], ["ACCOMPLISHMENTS"]],
    [["PUBLICATIONS"], ["RESEARCH"], ["PAPERS"]],
    [["VOLUNTEER"], ["VOLUNTEER", "EXPERIENCE"], ["COMMUNITY", "SERVICE"]],
    [["LANGUAGES"], ["LANGUAGE", "SKILLS"]],
    [["INTERESTS"], ["HOBBIES"]],
    [["REFERENCES"]]
  ]

  /**
   * `re.match("W1\s+W2...", s, re.IGNORECASE)`. Each word starts with a
   * letter, so the greedy `\s+` never needs to give characters back.
   */
  predicate MatchesWords(s: string, words: seq<string>)
    decreases |words|
  {
    if words == [] then true
    else
      |words[0]| <= |s| && Upper(s[..|words[0]|]) == words[0] &&
      (|words| == 1 ||
        var rest := s[|words[0]|..];
        var n := LeadingSpaces(rest);
        n >= 1 && MatchesWords(rest[n..], words[1..]))
  }

  /** One of the known section titles starts the line, ignoring case. */
  predicate IsKnownHeader(line: string) {
    exists p, a | 0 <= p < |SectionPatterns| && 0 <= a < |SectionPatterns[p]| ::
      MatchesWords(line, SectionPatterns[p][a])
  }

  /** Every alternative of every pattern begins with a non-empty upper-case word. */
  lemma SectionPatternsWellFormed()
    ensures forall p, a | 0 <= p < |SectionPatterns| && 0 <= a < |SectionPatterns[p]| ::
      |SectionPatterns[p][a]| >= 1 && |SectionPatterns[p][a][0]| >= 1 && IsUpperChar(SectionPatterns[p][a][0][0])
  {
  }

  /** A known header begins with a letter. */
  lemma KnownHeaderStartsWithLetter(line: string)
    requires IsKnownHeader(line)
    ensures line != [] && IsLetter(line[0])
  {
    SectionPatternsWellFormed();
    var p, a :| 0 <= p < |SectionPatterns| && 0 <= a < |SectionPatterns[p]| && MatchesWords(line, SectionPatterns[p][a]);
    var w := SectionPatterns[p][a][0];
    assert Upper(line[..|w|])[0] == UpperChar(line[0]) == w[0];
  }

  /** A normalisation rule: if the key contains any of the keywords, the section gets the name. */
  datatype NameRule = NameRule(keywords: seq<string>, name: string)

  /** The normalisation rules in the order they are tried. */
  const NameRules: seq<NameRule> := [
    NameRule(["SUMMARY", "PROFILE", "OBJECTIVE"], "Professional Summary"),
    NameRule(["EXPERIENCE", "EMPLOYMENT"], "Work Experience"),
    NameRule(["EDUCATION", "ACADEMIC"], "Education"),
    NameRule(["SKILL", "COMPETENC", "EXPERTISE"], "Skills"),
    NameRule(["CERTIFICATION", "CERTIFICATE"], "Certifications"),
    NameRule(["PROJECT"], "Projects"),
    NameRule(["AWARD", "HONOR", "ACHIEVEMENT"], "Awards & Achievements"),
    NameRule(["PUBLICATION", "RESEARCH"], "Publications"),
    NameRule(["VOLUNTEER", "COMMUNITY"], "Volunteer Experience"),
    NameRule(["LANGUAGE"], "Languages"),
    NameRule(["INTEREST", "HOBBIES"], "Interests"),
    NameRule(["REFERENCE"], "References")
  ]

  predicate Fires(key: string, rule: NameRule) {
    exists k | 0 <= k < |rule.keywords| :: Contains(key, rule.keywords[k])
  }

  /** The first rule that fires names the section; when none does, the key is title-cased. */
  function ApplyNameRules(key: string, rules: seq<NameRule>): string
    decreases |rules|
  {
    if rules == [] then Title(key)
    else if Fires(key, rules[0]) then rules[0].name
    else ApplyNameRules(key, rules[1..])
  }

  /** The header stripped, its trailing colons removed, upper-cased. */
  function HeaderKey(header: string): string {
    Upper(RStrip(Strip(header), {':'}))
  }

  function NormalizeSectionName(header: string): string {
    ApplyNameRules(HeaderKey(header), NameRules)
  }

  /** Rule k fires and no earlier rule does. */
  predicate FirstFiring(key: string, rules: seq<NameRule>, k: nat)
    requires k < |rules|
  {
    Fires(key, rules[k]) && forall j :: 0 <= j < k ==> !Fires(key, rules[j])
  }

  /** First match wins: the name of the earliest rule that fires. */
  lemma {:induction false} ApplyNameRulesFirst(key: string, rules: seq<NameRule>, k: nat)
    requires k < |rules| && FirstFiring(key, rules, k)
    ensures ApplyNameRules(key, rules) == rules[k].name
    decreases k
  {
    if k > 0 {
      assert !Fires(key, rules[0]);
      assert FirstFiring(key, rules[1..], k - 1);
      ApplyNameRulesFirst(key, rules[1..], k - 1);
    }
  }

  lemma {:induction false} ApplyNameRulesNone(key: string, rules: seq<NameRule>)
    requires forall j :: 0 <= j < |rules| ==> !Fires(key, rules[j])
    ensures ApplyNameRules(key, rules) == Title(key)
    decreases |rules|
  {
    if rules != [] {
      assert !Fires(key, rules[0]);
      ApplyNameRulesNone(key, rules[1..]);
    }
  }

  /**
   * The rules are tried in their fixed order on the upper-cased,
   * colon-stripped header: the earliest rule with a keyword inside the key
   * names the section, and a header no rule recognises is title-cased.
   */
  lemma NormalizePrecedence(header: string)
    ensures forall k :: 0 <= k < |NameRules| && FirstFiring(HeaderKey(header), NameRules, k) ==>
      NormalizeSectionName(header) == NameRules[k].name
    ensures (forall j :: 0 <= j < |NameRules| ==> !Fires(HeaderKey(header), NameRules[j]))
      ==> NormalizeSectionName(header) == Title(HeaderKey(header))
  {
    forall k | 0 <= k < |NameRules| && FirstFiring(HeaderKey(header), NameRules, k)
      ensures NormalizeSectionName(header) == NameRules[k].name
    {
      ApplyNameRulesFirst(HeaderKey(header), NameRules, k);
    }
    if forall j :: 0 <= j < |NameRules| ==> !Fires(HeaderKey(header), NameRules[j]) {
      ApplyNameRulesNone(HeaderKey(header), NameRules);
    }
  }

  /**
   * `_is_section_header` on an already stripped line: a known title prefix
   * makes a header of any length, named by normalisation; otherwise a line
   * under 50 characters that is all upper-case or title-case is a header
   * named by itself without its trailing colons.
   */
  function IsSectionHeader(line: string): Option<string> {
    if IsKnownHeader(line) then Some(NormalizeSectionName(line))
    else if |line| < 50 && (IsUpper(line) || IsTitle(line)) then
      Some(Strip(if ':' in line then RStrip(line, {':'}) else line))
    else None
  }

  /**
   * A known title makes a header whatever the line's length, named by
   * normalisation; otherwise only a short upper-case or title-case line is
   * a header.
   */
  lemma SectionHeaderCases(line: string)
    ensures IsSectionHeader(line).Some? <==> IsKnownHeader(line) || (|line| < 50 && (IsUpper(line) || IsTitle(line)))
    ensures IsKnownHeader(line) ==> IsSectionHeader(line) == Some(NormalizeSectionName(line))
  {
  }

  /** A header that is not a known title is named by itself, without trailing colons and surrounding whitespace. */
  lemma CasedHeaderName(line: string)
    requires !IsKnownHeader(line) && IsSectionHeader(line).Some?
    ensures IsSectionHeader(line).value == Strip(RStrip(line, {':'}))
  {
    if ':' !in line && line != [] {
      assert line[|line| - 1] != ':';
    }
  }

  lemma RStripKeepsIndex(s: string, cs: set<char>, k: nat)
    requires k < |s| && s[k] !in cs
    ensures k < |RStrip(s, cs)| && RStrip(s, cs)[k] == s[k]
  {
  }

  lemma LStripKeepsAll(s: string, cs: set<char>)
    requires s != [] && s[0] !in cs
    ensures LStrip(s, cs) == s
  {
  }

  /** The empty line is never a header. */
  lemma EmptyLineNotHeader()
    ensures IsSectionHeader("").None?
  {
    if IsKnownHeader("") {
      KnownHeaderStartsWithLetter("");
    }
    assert !IsUpper("");
    if IsTitle("") { TitleScanHasCased("", false, false); }
  }

  /** Every rule has a non-empty section name. */
  lemma NameRulesNamed()
    ensures forall j :: 0 <= j < |NameRules| ==> NameRules[j].name != ""
  {
  }

  /** A known header starts with a letter, so its key is not empty. */
  lemma KnownHeaderKey(line: string)
    requires IsKnownHeader(line)
    ensures HeaderKey(line) != ""
  {
    KnownHeaderStartsWithLetter(line);
    LStripKeepsAll(line, Whitespace);
    RStripKeepsIndex(line, Whitespace, 0);
    RStripKeepsIndex(Strip(line), {':'}, 0);
  }

  /** A known header has a non-empty key, so normalisation names it. */
  lemma KnownHeaderNamed(line: string)
    requires IsKnownHeader(line)
    ensures NormalizeSectionName(line) != ""
  {
    KnownHeaderKey(line);
    NameRulesNamed();
    ApplyNamesNonEmpty(HeaderKey(line), NameRules);
  }

  /** A header recognised by its letter case contains a letter, which survives stripping. */
  lemma CasedHeaderNamed(line: string)
    requires IsUpper(line) || IsTitle(line)
    ensures Strip(RStrip(line, {':'})) != ""
  {
    var i: nat;
    if IsUpper(line) {
      i :| 0 <= i < |line| && IsLetter(line[i]);
    } else {
      TitleScanHasCased(line, false, false);
      i :| 0 <= i < |line| && IsLetter(line[i]);
    }
    RStripKeepsIndex(line, {':'}, i);
    StripCharsNonEmpty(RStrip(line, {':'}), Whitespace, i);
  }

  /** Every header gets a non-empty name. */
  lemma SectionHeaderNamed(line: string)
    requires IsSectionHeader(line).Some?
    ensures IsSectionHeader(line).value != ""
  {
    if IsKnownHeader(line) {
      KnownHeaderNamed(line);
    } else {
      CasedHeaderNamed(line);
    }
  }

  lemma {:induction false} ApplyNamesNonEmpty(key: string, rules: seq<NameRule>)
    requires key != []
    requires forall j :: 0 <= j < |rules| ==> rules[j].name != ""
    ensures ApplyNameRules(key, rules) != ""
    decreases |rules|
  {
    if rules != [] && !Fires(key, rules[0]) { ApplyNamesNonEmpty(key, rules[1..]); }
  }
}
