/**
 * The resume tailor: the length guard in front of the language model, the
 * prompt it is sent, the stand-in answer used when no model is configured,
 * the keyword match score, the matched-keyword list and the rule-based
 * improvement suggestions.
 */
module Tailor {
  import opened Wrappers
  import opened Text
  import opened Matching
  import opened Jobs

  // ---------------------------------------------------------------- join helpers

  lemma TakeTake<T>(xs: seq<T>, n: nat)
    ensures Take(Take(xs, n), n) == Take(xs, n)
  {
  }

  // ---------------------------------------------------------------- guard

  const ResumeTooShort: string := "Original resume is too short to process (minimum 100 characters)"

  // ---------------------------------------------------------------- prompt

  const TaskLine: string := "# TASK: Tailor the following resume for a specific job opportunity\n"
  const ResumeHeading: string := "## ORIGINAL RESUME (DO NOT CHANGE ANY FACTS):\n"
  const Fence: string := "```"
  const FenceEnd: string := "```\n"
  const AnalysisHeading: string := "## TARGET JOB ANALYSIS:\n"

  /** The opening of the prompt: the task line and the resume between code fences. */
  function PromptHead(resume: string): seq<string> {
    [TaskLine, ResumeHeading, Fence, resume, FenceEnd, AnalysisHeading]
  }

  const TitleLabel: string := "**Job Title**: "
  const CompanyLabel: string := "**Company**: "

  /** The title and company lines, each present only when the field is set and non-empty. */
  function IdentityLines(a: JobAnalysis): seq<string> {
    (if Truthy(a.jobTitle) then [TitleLabel + a.jobTitle.value + "\n"] else [])
    + (if Truthy(a.companyName) then [CompanyLabel + a.companyName.value + "\n"] else [])
  }

  const HardSkillsLabel: string := "\n**Required Hard Skills**: "
  const SoftSkillsLabel: string := "\n**Required Soft Skills**: "
  const ExperienceLabel: string := "\n**Experience Level**: "
  const ResponsibilitiesLabel: string := "\n**Key Responsibilities**: "
  const KeywordsLabel: string := "\n**Important Keywords**: "
  const VerbsLabel: string := "\n**Action Verbs to Use**: "

  /** The six requirement lines; responsibilities, keywords and action verbs are cut to 5, 15 and 10. */
  function RequirementLines(a: JobAnalysis): seq<string> {
    [ HardSkillsLabel + Join(a.hardSkills, ", "),
      SoftSkillsLabel + Join(a.softSkills, ", "),
      ExperienceLabel + a.experienceRequired,
      ResponsibilitiesLabel + Join(Take(a.keyResponsibilities, 5), ", "),
      KeywordsLabel + Join(Take(a.keywords, 15), ", "),
      VerbsLabel + Join(Take(a.actionVerbs, 10), ", ") ]
  }

  const QualificationsLabel: string := "\n**Required Qualifications**: "
  const CultureLabel: string := "\n**Company Culture**: "

  /** The qualifications and culture lines, each present only when its list is non-empty. */
  function ExtraLines(a: JobAnalysis): seq<string> {
    (if a.qualifications != [] then [QualificationsLabel + Join(a.qualifications, ", ")] else [])
    + (if a.cultureKeywords != [] then [CultureLabel + Join(a.cultureKeywords, ", ")] else [])
  }

  const DescriptionHeading: string := "\n\n## FULL JOB DESCRIPTION (for context):\n"

  /** The full job description, at most its first 2000 characters, between code fences, when given. */
  function DescriptionLines(jobDescription: Option<string>): seq<string> {
    if Truthy(jobDescription) then
      [DescriptionHeading, Fence, PyPrefix(jobDescription.value, 2000), FenceEnd]
    else []
  }

  const Instructions: seq<string> := [
    "\n## YOUR TASK:\n",
    "Tailor the original resume to highlight experiences and skills that match the job requirements.",
    "Remember: Only use information from the original resume. Do not fabricate anything.",
    "Incorporate the target keywords naturally. Use the suggested action verbs where appropriate.",
    "\nReturn ONLY the tailored resume in Markdown format with clear sections and bullet points.",
    "Do not include any explanations or comments - just the resume itself.\n",
    "\n**Tailored Resume:**\n"
  ]

  /** The pieces of the prompt, in order. */
  function PromptParts(resume: string, a: JobAnalysis, jobDescription: Option<string>): seq<string> {
    PromptHead(resume) + IdentityLines(a) + RequirementLines(a) + ExtraLines(a)
    + DescriptionLines(jobDescription) + Instructions
  }

  /** The prompt: the pieces joined by newlines. */
  function TailoringPrompt(resume: string, a: JobAnalysis, jobDescription: Option<string>): string {
    Join(PromptParts(resume, a, jobDescription), "\n")
  }

  /** `_build_tailoring_prompt`: the list of pieces grows by appends and extends, then is joined. */
  method BuildTailoringPrompt(resume: string, a: JobAnalysis, jobDescription: Option<string>) returns (prompt: string)
    ensures prompt == TailoringPrompt(resume, a, jobDescription)
  {
    var parts := PromptHead(resume);
    if Truthy(a.jobTitle) {
      parts := parts + [TitleLabel + a.jobTitle.value + "\n"];
    }
    if Truthy(a.companyName) {
      parts := parts + [CompanyLabel + a.companyName.value + "\n"];
    }
    assert parts == PromptHead(resume) + IdentityLines(a);
    parts := parts + RequirementLines(a);
    if a.qualifications != [] {
      parts := parts + [QualificationsLabel + Join(a.qualifications, ", ")];
    }
    if a.cultureKeywords != [] {
      parts := parts + [CultureLabel + Join(a.cultureKeywords, ", ")];
    }
    assert parts == PromptHead(resume) + IdentityLines(a) + RequirementLines(a) + ExtraLines(a);
    if Truthy(jobDescription) {
      parts := parts + [DescriptionHeading, Fence, PyPrefix(jobDescription.value, 2000), FenceEnd];
    }
    assert parts == PromptHead(resume) + IdentityLines(a) + RequirementLines(a) + ExtraLines(a) + DescriptionLines(jobDescription);
    parts := parts + Instructions;
    prompt := Join(parts, "\n");
  }

  /** The number of pieces: 19 fixed ones, plus one per optional line and four for the description. */
  lemma PromptPartCount(resume: string, a: JobAnalysis, jobDescription: Option<string>)
    ensures |PromptParts(resume, a, jobDescription)| ==
      19 + (if Truthy(a.jobTitle) then 1 else 0) + (if Truthy(a.companyName) then 1 else 0)
      + (if a.qualifications != [] then 1 else 0) + (if a.cultureKeywords != [] then 1 else 0)
      + (if Truthy(jobDescription) then 4 else 0)
  {
  }

  /** The resume is copied verbatim into the prompt, on its own between two fence lines. */
  lemma PromptQuotesResume(resume: string, a: JobAnalysis, jobDescription: Option<string>)
    ensures Contains(TailoringPrompt(resume, a, jobDescription), Fence + "\n" + resume + "\n" + FenceEnd)
  {
    var parts := PromptParts(resume, a, jobDescription);
    assert parts[2] == Fence && parts[3] == resume && parts[4] == FenceEnd;
    JoinContainsRun(parts, "\n", 2);
  }

  /** Only the first 5 responsibilities, 15 keywords and 10 action verbs reach the prompt. */
  lemma PromptUsesListPrefixes(resume: string, a: JobAnalysis, jobDescription: Option<string>)
    ensures TailoringPrompt(resume, a, jobDescription) ==
      TailoringPrompt(resume, a.(keyResponsibilities := Take(a.keyResponsibilities, 5),
                                 keywords := Take(a.keywords, 15),
                                 actionVerbs := Take(a.actionVerbs, 10)), jobDescription)
  {
    TakeTake(a.keyResponsibilities, 5);
    TakeTake(a.keywords, 15);
    TakeTake(a.actionVerbs, 10);
  }

  /** Only the first 2000 characters of the job description reach the prompt. */
  lemma PromptUsesDescriptionPrefix(resume: string, a: JobAnalysis, jobDescription: string)
    ensures TailoringPrompt(resume, a, Some(jobDescription)) ==
      TailoringPrompt(resume, a, Some(PyPrefix(jobDescription, 2000)))
  {
    var cut := PyPrefix(jobDescription, 2000);
    assert PyPrefix(cut, 2000) == cut;
    assert jobDescription != "" <==> cut != "";
  }

  // ---------------------------------------------------------------- stand-in answer

  const DefaultTitle: string := "Target Position"

  /** `job_analysis.job_title or "Target Position"`: an absent or empty title falls back. */
  function TitleOrDefault(a: JobAnalysis): (t: string)
    ensures t != ""
  {
    if Truthy(a.jobTitle) then a.jobTitle.value else DefaultTitle
  }

  const SummaryOpening: string := "## Professional Summary\n\nExperienced professional with expertise in "
  const SummaryMiddle: string :=
    ". Proven track record of delivering results in dynamic environments. Seeking to leverage skills and experience in the "
  const SummaryClosing: string := " role.\n\n## "
  const FooterTitle: string := "\n\n---\n*Resume tailored for: "
  const FooterSkills: string := "*\n*Key skills highlighted: "
  const FooterEnd: string := "*\n"

  /** `_mock_tailoring`: a summary naming the first five hard skills, the resume, and a footer. */
  function MockTailoring(resume: string, a: JobAnalysis): string {
    var skills := Join(Take(a.hardSkills, 5), ", ");
    var title := TitleOrDefault(a);
    SummaryOpening + skills + SummaryMiddle + title + SummaryClosing + resume + FooterTitle + title + FooterSkills + skills + FooterEnd
  }

  /** The stand-in answer embeds the resume unchanged. */
  lemma MockEmbedsResume(resume: string, a: JobAnalysis)
    ensures Contains(MockTailoring(resume, a), resume)
  {
    var skills := Join(Take(a.hardSkills, 5), ", ");
    var title := TitleOrDefault(a);
    var t := SummaryOpening + skills + SummaryMiddle + title + SummaryClosing + resume;
    SuffixContained(t, resume);
    ContainsAppend(t, FooterTitle, resume);
    ContainsAppend(t + FooterTitle, title, resume);
    ContainsAppend(t + FooterTitle + title, FooterSkills, resume);
    ContainsAppend(t + FooterTitle + title + FooterSkills, skills, resume);
    ContainsAppend(t + FooterTitle + title + FooterSkills + skills, FooterEnd, resume);
  }

  /** Only the first five hard skills matter to the stand-in answer. */
  lemma MockUsesFirstFiveSkills(resume: string, a: JobAnalysis)
    ensures MockTailoring(resume, a) == MockTailoring(resume, a.(hardSkills := Take(a.hardSkills, 5)))
  {
    TakeTake(a.hardSkills, 5);
  }

  /** A missing or empty job title reads as "Target Position". */
  lemma MockTitleFallback(resume: string, a: JobAnalysis)
    requires !Truthy(a.jobTitle)
    ensures MockTailoring(resume, a) == MockTailoring(resume, a.(jobTitle := Some(DefaultTitle)))
  {
  }

  // ---------------------------------------------------------------- tailor_resume

  /**
   * `tailor_resume`. `generate` stands for the configured language model
   * (the prompt in, the reply or its failure out); `None` means no model is
   * configured and the stand-in answer is returned.
   */
  method TailorResume(resume: string, a: JobAnalysis, jobDescription: Option<string>,
                      generate: Option<string -> Result<string>>) returns (r: Result<string>)
    ensures |Strip(resume)| < 100 ==> r == Err(ValueError(ResumeTooShort))
    ensures |Strip(resume)| >= 100 && generate.Some? ==> r == generate.value(TailoringPrompt(resume, a, jobDescription))
    ensures |Strip(resume)| >= 100 && generate.None? ==> r == Ok(MockTailoring(resume, a))
  {
    if |Strip(resume)| < 100 {
      return Err(ValueError(ResumeTooShort));
    }
    var prompt := BuildTailoringPrompt(resume, a, jobDescription);
    match generate {
      case Some(gen) => r := gen(prompt);
      case None => r := Ok(MockTailoring(resume, a));
    }
  }

  // ---------------------------------------------------------------- score

  /** The items the score is computed over: hard skills, then soft skills, then keywords. */
  function RequiredItems(a: JobAnalysis): seq<string> {
    a.hardSkills + a.softSkills + a.keywords
  }

  /**
   * `calculate_match_score`, as an exact ratio: the share of required items
   * found in the resume, as a percentage; 0 when there are no items.
   */
  function MatchScore(resume: string, a: JobAnalysis): (score: real)
    ensures 0.0 <= score <= 100.0
    ensures RequiredItems(a) == [] ==> score == 0.0
  {
    var items := RequiredItems(a);
    if items == [] then 0.0
    else
      CountMatchedBounds(items, resume);
      ScaleBounds(CountMatched(items, resume), |items|);
      (CountMatched(items, resume) as real) / (|items| as real) * 100.0
  }

  lemma ScaleBounds(m: nat, n: nat)
    requires 0 < n && m <= n
    ensures 0.0 <= (m as real) / (n as real) * 100.0 <= 100.0
  {
    var d := n as real;
    assert (m as real) / d <= d / d;
  }

  lemma ScaleMonotone(m1: nat, m2: nat, n: nat)
    requires 0 < n && m1 <= m2
    ensures (m1 as real) / (n as real) * 100.0 <= (m2 as real) / (n as real) * 100.0
  {
    var d := n as real;
    assert (m1 as real) / d <= (m2 as real) / d;
  }

  lemma ScaleFull(m: nat, n: nat)
    requires 0 < n && m <= n
    ensures (m as real) / (n as real) * 100.0 == 100.0 <==> m == n
  {
    var d := n as real;
    if (m as real) / d * 100.0 == 100.0 {
      assert (m as real) / d == 1.0;
      assert m as real == d;
    }
  }

  /** The score is 100 exactly when every required item occurs in the resume (and there is one). */
  lemma ScoreFull(resume: string, a: JobAnalysis)
    ensures MatchScore(resume, a) == 100.0 <==>
      RequiredItems(a) != [] && forall i :: 0 <= i < |RequiredItems(a)| ==> MatchesCI(RequiredItems(a)[i], resume)
  {
    var items := RequiredItems(a);
    if items != [] {
      CountMatchedBounds(items, resume);
      ScaleFull(CountMatched(items, resume), |items|);
    }
  }

  /** Appending text to the resume never lowers the score. */
  lemma ScoreMonotone(resume: string, more: string, a: JobAnalysis)
    ensures MatchScore(resume, a) <= MatchScore(resume + more, a)
  {
    var items := RequiredItems(a);
    if items != [] {
      CountMatchedMonotone(items, resume, more);
      ScaleMonotone(CountMatched(items, resume), CountMatched(items, resume + more), |items|);
    }
  }

  /** The score ignores the resume's letter case. */
  lemma ScoreIgnoresCase(resume: string, other: string, a: JobAnalysis)
    requires Lower(resume) == Lower(other)
    ensures MatchScore(resume, a) == MatchScore(other, a)
  {
    CountMatchedCaseInsensitive(RequiredItems(a), resume, other);
  }

  /** A repeated item counts each time: the count over the items splits over the three lists. */
  lemma ScoreCountsEachList(resume: string, a: JobAnalysis)
    ensures CountMatched(RequiredItems(a), resume) ==
      CountMatched(a.hardSkills, resume) + CountMatched(a.softSkills, resume) + CountMatched(a.keywords, resume)
  {
    CountMatchedAppend(a.hardSkills + a.softSkills, a.keywords, resume);
    CountMatchedAppend(a.hardSkills, a.softSkills, resume);
  }

  // ---------------------------------------------------------------- matched keywords

  /**
   * `identify_matched_keywords`. The job's full keyword list comes from a
   * method of the job record that is not part of this model, so it is given.
   */
  function IdentifyMatchedKeywords(resume: string, allKeywords: seq<string>): (matched: seq<string>)
    ensures |matched| == CountMatched(allKeywords, resume)
    ensures IsSubsequence(matched, allKeywords)
  {
    MatchedInCount(allKeywords, resume);
    MatchedInSubsequence(allKeywords, resume);
    MatchedIn(allKeywords, resume)
  }

  /** A keyword is reported exactly when it is in the list and occurs in the resume, ignoring case. */
  lemma MatchedKeywordsMembers(resume: string, allKeywords: seq<string>, k: string)
    ensures k in IdentifyMatchedKeywords(resume, allKeywords) <==> k in allKeywords && MatchesCI(k, resume)
  {
    MatchedInMembers(allKeywords, resume, k);
  }

  // ---------------------------------------------------------------- suggestions

  /** The items of the list that do not occur in the text, in order. */
  function MissingFrom(items: seq<string>, text: string): seq<string>
    decreases |items|
  {
    if items == [] then []
    else
      var last := items[|items| - 1];
      MissingFrom(items[..|items| - 1], text) + (if MatchesCI(last, text) then [] else [last])
  }

  lemma {:induction false} MissingFromMembers(items: seq<string>, text: string, x: string)
    ensures x in MissingFrom(items, text) <==> x in items && !MatchesCI(x, text)
    decreases |items|
  {
    if items != [] {
      MissingFromMembers(items[..|items| - 1], text, x);
      assert items == items[..|items| - 1] + [items[|items| - 1]];
    }
  }

  lemma {:induction false} MissingFromEmpty(items: seq<string>, text: string)
    ensures MissingFrom(items, text) == [] <==> forall i :: 0 <= i < |items| ==> MatchesCI(items[i], text)
    decreases |items|
  {
    if items != [] {
      MissingFromEmpty(items[..|items| - 1], text);
      assert forall i :: 0 <= i < |items| - 1 ==> items[..|items| - 1][i] == items[i];
    }
  }

  /**
   * `str(job_analysis.qualifications)`: the list as Python prints it, each
   * item quoted. Python's escaping of quotes and backslashes inside an item
   * is not modelled.
   */
  function ListRepr(items: seq<string>): string {
    "[" + Join(QuoteAll(items), ", ") + "]"
  }

  function QuoteAll(items: seq<string>): (r: seq<string>)
    ensures |r| == |items|
    decreases |items|
  {
    if items == [] then [] else ["'" + items[0] + "'"] + QuoteAll(items[1..])
  }

  predicate MissingSkillsRule(tailored: string, a: JobAnalysis) {
    MissingFrom(Take(a.hardSkills, 5), tailored) != []
  }

  predicate MetricsRule(tailored: string) {
    !HasDigit(tailored)
  }

  predicate ActionVerbsRule(tailored: string, a: JobAnalysis) {
    CountMatched(a.actionVerbs, tailored) < 3
  }

  const CertificationWord: string := "certification"
  const CertifStem: string := "certif"

  predicate CertificationRule(tailored: string, a: JobAnalysis) {
    a.qualifications != [] && Contains(Lower(ListRepr(a.qualifications)), CertificationWord)
    && !Contains(Lower(tailored), CertifStem)
  }

  /** The four kinds of suggestion, with what each message lists. */
  datatype Suggestion =
    | MissingSkills(skills: seq<string>)
    | AddMetrics
    | MoreActionVerbs(examples: seq<string>)
    | HighlightCertifications

  const MissingSkillsOpening: string := "Consider adding experience with: "
  const MissingSkillsClosing: string := " if applicable"
  const MetricsMessage: string := "Add quantifiable metrics and numbers to your achievements for greater impact"
  const ActionVerbsOpening: string := "Use more action verbs like: "
  const CertificationMessage: string := "Highlight any relevant certifications prominently"

  /** The text of a suggestion. */
  function Message(s: Suggestion): string {
    match s
    case MissingSkills(skills) => MissingSkillsOpening + Join(skills, ", ") + MissingSkillsClosing
    case AddMetrics => MetricsMessage
    case MoreActionVerbs(examples) => ActionVerbsOpening + Join(examples, ", ")
    case HighlightCertifications => CertificationMessage
  }

  function Messages(xs: seq<Suggestion>): (r: seq<string>)
    ensures |r| == |xs|
    decreases |xs|
  {
    if xs == [] then [] else Messages(xs[..|xs| - 1]) + [Message(xs[|xs| - 1])]
  }

  lemma MessagesSnoc(xs: seq<Suggestion>, x: Suggestion)
    ensures Messages(xs + [x]) == Messages(xs) + [Message(x)]
  {
    assert (xs + [x])[..|xs|] == xs;
  }

  function When(c: bool, s: Suggestion): seq<Suggestion> {
    if c then [s] else []
  }

  /** The four rules in order, each suggesting when it fires. */
  function SuggestionsFor(tailored: string, a: JobAnalysis): seq<Suggestion> {
    When(MissingSkillsRule(tailored, a), MissingSkills(MissingFrom(Take(a.hardSkills, 5), tailored)))
    + When(MetricsRule(tailored), AddMetrics)
    + When(ActionVerbsRule(tailored, a), MoreActionVerbs(Take(a.actionVerbs, 5)))
    + When(CertificationRule(tailored, a), HighlightCertifications)
  }

  /** One rule of `generate_suggestions`: append the suggestion's message when the rule fires. */
  method Suggest(suggestions: seq<string>, ghost kinds: seq<Suggestion>, fires: bool, kind: Suggestion)
    returns (suggestions': seq<string>, ghost kinds': seq<Suggestion>)
    requires suggestions == Messages(kinds)
    ensures kinds' == kinds + When(fires, kind)
    ensures suggestions' == Messages(kinds')
  {
    suggestions', kinds' := suggestions, kinds;
    if fires {
      MessagesSnoc(kinds, kind);
      suggestions' := suggestions + [Message(kind)];
      kinds' := kinds + [kind];
    } else {
      assert kinds + [] == kinds;
    }
  }

  /** `generate_suggestions`: the rules are checked in turn, each appending its message. */
  method GenerateSuggestions(original: string, tailored: string, a: JobAnalysis) returns (suggestions: seq<string>)
    ensures suggestions == Messages(SuggestionsFor(tailored, a))
  {
    suggestions := [];
    ghost var kinds: seq<Suggestion> := [];
    var criticalSkills := Take(a.hardSkills, 5);
    var tailoredLower := Lower(tailored);
    var missingSkills := MissingFrom(criticalSkills, tailored);
    suggestions, kinds := Suggest(suggestions, kinds, missingSkills != [], MissingSkills(missingSkills));
    suggestions, kinds := Suggest(suggestions, kinds, !HasDigit(tailored), AddMetrics);
    var actionVerbCount := CountMatched(a.actionVerbs, tailored);
    suggestions, kinds := Suggest(suggestions, kinds, actionVerbCount < 3, MoreActionVerbs(Take(a.actionVerbs, 5)));
    var mentionsCertification := a.qualifications != [] && Contains(Lower(ListRepr(a.qualifications)), CertificationWord);
    suggestions, kinds := Suggest(suggestions, kinds, mentionsCertification && !Contains(tailoredLower, CertifStem),
                                  HighlightCertifications);
    assert [] + When(MissingSkillsRule(tailored, a), MissingSkills(missingSkills)) == When(MissingSkillsRule(tailored, a), MissingSkills(missingSkills));
  }

  /** Four guarded suggestions of four different kinds: each is present exactly when its guard holds. */
  lemma GuardedKinds(c1: bool, c2: bool, c3: bool, c4: bool, x1: Suggestion, x3: Suggestion)
    requires x1.MissingSkills? && x3.MoreActionVerbs?
    ensures var s := When(c1, x1) + When(c2, AddMetrics) + When(c3, x3) + When(c4, HighlightCertifications);
      |s| <= 4 && (x1 in s <==> c1) && (AddMetrics in s <==> c2) && (x3 in s <==> c3) &&
      (HighlightCertifications in s <==> c4)
  {
  }

  /** At most four suggestions, and each kind appears exactly when its rule fires. */
  lemma SuggestionRules(tailored: string, a: JobAnalysis)
    ensures |SuggestionsFor(tailored, a)| <= 4
    ensures MissingSkills(MissingFrom(Take(a.hardSkills, 5), tailored)) in SuggestionsFor(tailored, a)
      <==> MissingSkillsRule(tailored, a)
    ensures AddMetrics in SuggestionsFor(tailored, a) <==> MetricsRule(tailored)
    ensures MoreActionVerbs(Take(a.actionVerbs, 5)) in SuggestionsFor(tailored, a) <==> ActionVerbsRule(tailored, a)
    ensures HighlightCertifications in SuggestionsFor(tailored, a) <==> CertificationRule(tailored, a)
  {
    GuardedKinds(MissingSkillsRule(tailored, a), MetricsRule(tailored), ActionVerbsRule(tailored, a),
      CertificationRule(tailored, a), MissingSkills(MissingFrom(Take(a.hardSkills, 5), tailored)),
      MoreActionVerbs(Take(a.actionVerbs, 5)));
  }

  /** The suggestions come in the fixed rule order. */
  lemma SuggestionOrder(tailored: string, a: JobAnalysis)
    ensures IsSubsequence(SuggestionsFor(tailored, a),
      [MissingSkills(MissingFrom(Take(a.hardSkills, 5), tailored)), AddMetrics,
       MoreActionVerbs(Take(a.actionVerbs, 5)), HighlightCertifications])
  {
    var x1 := MissingSkills(MissingFrom(Take(a.hardSkills, 5), tailored));
    var x3 := MoreActionVerbs(Take(a.actionVerbs, 5));
    var c1, c2, c3, c4 := MissingSkillsRule(tailored, a), MetricsRule(tailored), ActionVerbsRule(tailored, a), CertificationRule(tailored, a);
    var e: seq<Suggestion> := [];
    SubsequenceExtend(e, e, x1, c1);
    assert e + When(c1, x1) == When(c1, x1) && e + [x1] == [x1];
    SubsequenceExtend(When(c1, x1), [x1], AddMetrics, c2);
    assert [x1] + [AddMetrics] == [x1, AddMetrics];
    SubsequenceExtend(When(c1, x1) + When(c2, AddMetrics), [x1, AddMetrics], x3, c3);
    assert [x1, AddMetrics] + [x3] == [x1, AddMetrics, x3];
    SubsequenceExtend(When(c1, x1) + When(c2, AddMetrics) + When(c3, x3), [x1, AddMetrics, x3], HighlightCertifications, c4);
    assert [x1, AddMetrics, x3] + [HighlightCertifications] == [x1, AddMetrics, x3, HighlightCertifications];
  }

  /** The missing-skills message lists exactly the first five hard skills that do not occur. */
  lemma MissingSkillsListed(tailored: string, a: JobAnalysis, skill: string)
    ensures skill in MissingFrom(Take(a.hardSkills, 5), tailored) <==>
      skill in Take(a.hardSkills, 5) && !MatchesCI(skill, tailored)
  {
    MissingFromMembers(Take(a.hardSkills, 5), tailored, skill);
  }

  /** The missing-skills rule fires exactly when one of the first five hard skills does not occur. */
  lemma MissingSkillsRuleFires(tailored: string, a: JobAnalysis)
    ensures MissingSkillsRule(tailored, a) <==>
      exists i :: 0 <= i < |Take(a.hardSkills, 5)| && !MatchesCI(Take(a.hardSkills, 5)[i], tailored)
  {
    MissingFromEmpty(Take(a.hardSkills, 5), tailored);
  }
}
