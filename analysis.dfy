/**
 * The keyword extractor: the length guard in front of the language model,
 * the clean-up of the model's reply before it is decoded, and the
 * stand-in analysis produced when no model is configured.
 *
 * JSON encoding and decoding (and the record validation that follows
 * decoding) are given as functions.
 */
module Extractor {
  import opened Wrappers
  import opened Text
  import opened Matching
  import opened Jobs

  const DescriptionTooShort: string := "Job description is too short to analyze (minimum 50 characters)"

  // ---------------------------------------------------------------- reply clean-up

  const Fence: string := "```"
  const JsonFence: string := "```json"

  /** A leading "```json", or else a leading "```", removed. */
  function DropOpeningFence(s: string): (r: string)
    ensures |r| <= |s| && r == s[|s| - |r|..]
  {
    if StartsWith(s, JsonFence) then s[7..]
    else if StartsWith(s, Fence) then s[3..]
    else s
  }

  /** One trailing "```" removed. */
  function DropClosingFence(s: string): (r: string)
    ensures |r| <= |s| && r == s[..|r|]
  {
    if EndsWith(s, Fence) then s[..|s| - 3] else s
  }

  /**
   * `_parse_response`'s clean-up: strip, drop a leading "```json" or else a
   * leading "```", drop one trailing "```", strip again.
   */
  function CleanResponse(response: string): (r: string)
    ensures |r| <= |response|
  {
    Strip(DropClosingFence(DropOpeningFence(Strip(response))))
  }

  /** A piece of a piece of a text is a piece of the text. */
  lemma PieceOfPiece(s: string, k: nat, t: string, j: nat, r: string)
    requires k + |t| <= |s| && t == s[k..k + |t|]
    requires j + |r| <= |t| && r == t[j..j + |r|]
    ensures k + j + |r| <= |s| && r == s[k + j..k + j + |r|]
  {
    assert forall i | 0 <= i < |r| :: r[i] == t[j + i] == s[k + j + i];
  }

  /** The clean-up, one stage at a time. */
  lemma CleanStages(response: string, stripped: string, afterOpen: string, beforeClose: string)
    requires Strip(response) == stripped
    requires DropOpeningFence(stripped) == afterOpen
    requires DropClosingFence(afterOpen) == beforeClose
    ensures CleanResponse(response) == Strip(beforeClose)
  {
  }

  /** Dropping the fences leaves a piece of the text. */
  lemma FencesDroppedContained(s: string)
    ensures Contains(s, DropClosingFence(DropOpeningFence(s)))
  {
    var u := DropOpeningFence(s);
    var v := DropClosingFence(u);
    var j := |s| - |u|;
    assert u == s[j..j + |u|];
    assert v == u[0..0 + |v|];
    PieceOfPiece(s, 0, s, j, u);
    PieceOfPiece(s, j, u, 0, v);
    ContainsAt(s, v, j);
  }

  /** The cleaned reply is a contiguous piece of the reply. */
  lemma CleanResponseSlice(response: string)
    ensures Contains(response, CleanResponse(response))
  {
    var stripped := Strip(response);
    var inner := DropClosingFence(DropOpeningFence(stripped));
    StripContained(response);
    FencesDroppedContained(stripped);
    ContainsTransitive(response, stripped, inner);
    StripContained(inner);
    ContainsTransitive(response, inner, Strip(inner));
  }

  lemma StripTwice(s: string)
    ensures Strip(Strip(s)) == Strip(s)
  {
    StripCharsOfStripped(Strip(s), Whitespace);
  }

  /** "```json" begins with "```". */
  lemma JsonFenceIsFence(s: string)
    requires StartsWith(s, JsonFence)
    ensures StartsWith(s, Fence)
  {
    assert s[..3] == s[..7][..3];
  }

  /** A reply without fences is only stripped. */
  lemma CleanUnfenced(response: string)
    requires !StartsWith(Strip(response), Fence) && !EndsWith(Strip(response), Fence)
    ensures CleanResponse(response) == Strip(response)
  {
    var stripped := Strip(response);
    if StartsWith(stripped, JsonFence) {
      JsonFenceIsFence(stripped);
    }
    assert DropOpeningFence(stripped) == stripped;
    assert DropClosingFence(stripped) == stripped;
    StripTwice(response);
  }

  lemma DropJsonFence(rest: string)
    ensures DropOpeningFence(JsonFence + rest) == rest
  {
    assert (JsonFence + rest)[..7] == JsonFence;
  }

  /** A leading "```" that does not begin "```json" is dropped. */
  lemma DropPlainFence(rest: string)
    requires !StartsWith(Fence + rest, JsonFence)
    ensures DropOpeningFence(Fence + rest) == rest
  {
    assert (Fence + rest)[..3] == Fence;
  }

  lemma DropFinalFence(s: string)
    ensures DropClosingFence(s + Fence) == s
  {
    assert (s + Fence)[|s|..] == Fence;
  }

  lemma FencedIsStripped(tag: string, middle: string)
    requires tag == JsonFence || tag == Fence
    ensures IsStripped(tag + (middle + Fence), Whitespace)
  {
    var s := tag + (middle + Fence);
    assert s[0] == tag[0] == '`';
    assert s[|s| - 1] == Fence[2] == '`';
  }

  /** A line break on each side of a stripped body strips back to the body. */
  lemma StripLineBreaks(body: string, middle: string)
    requires IsStripped(body, Whitespace)
    requires middle == "\n" + body + "\n"
    ensures Strip(middle) == body
  {
    StripSurrounded("\n", body, "\n", Whitespace);
  }

  lemma DropTag(tag: string, rest: string)
    requires tag == JsonFence || tag == Fence
    requires rest != [] && rest[0] == '\n'
    ensures DropOpeningFence(tag + rest) == rest
  {
    if tag == JsonFence {
      DropJsonFence(rest);
    } else {
      assert (Fence + rest)[3] == '\n' != JsonFence[3];
      DropPlainFence(rest);
    }
  }

  lemma Regroup(tag: string, body: string, middle: string)
    requires middle == "\n" + body + "\n"
    ensures tag + "\n" + body + "\n" + Fence == tag + (middle + Fence)
  {
  }

  /** The stages of the clean-up on a fenced reply. */
  lemma CleanAssembled(s: string, middle: string, body: string)
    requires IsStripped(s, Whitespace)
    requires DropOpeningFence(s) == middle + Fence
    requires DropClosingFence(middle + Fence) == middle
    requires Strip(middle) == body
    ensures CleanResponse(s) == body
  {
    StripCharsOfStripped(s, Whitespace);
  }

  /**
   * A fenced block, "```json" or "```" on the first line and "```" on the
   * last, cleans to its stripped body: exactly one layer of fences goes.
   */
  lemma CleanFenced(tag: string, body: string)
    requires tag == JsonFence || tag == Fence
    requires IsStripped(body, Whitespace)
    ensures CleanResponse(tag + "\n" + body + "\n" + Fence) == body
  {
    var middle := "\n" + body + "\n";
    Regroup(tag, body, middle);
    StripLineBreaks(body, middle);
    CleanFencedMiddle(tag, middle, body);
  }

  lemma CleanFencedMiddle(tag: string, middle: string, body: string)
    requires tag == JsonFence || tag == Fence
    requires middle != [] && middle[0] == '\n'
    requires Strip(middle) == body
    ensures CleanResponse(tag + (middle + Fence)) == body
  {
    FencedIsStripped(tag, middle);
    DropTag(tag, middle + Fence);
    DropFinalFence(middle);
    CleanAssembled(tag + (middle + Fence), middle, body);
  }

  // ---------------------------------------------------------------- decoding

  /** The outcome of decoding the cleaned reply into a job record. */
  datatype Decoding =
    | Decoded(analysis: JobAnalysis)
    | BadJson(reason: string)
    | BadRecord(reason: string)

  const InvalidJson: string := "Invalid JSON response from LLM: "
  const ParseFailure: string := "Failed to parse LLM response: "

  /** `_parse_response`: clean the reply, decode it, and turn any failure into a ValueError. */
  function ParseResponse(response: string, decode: string -> Decoding): (r: Result<JobAnalysis>)
    ensures r.Ok? <==> decode(CleanResponse(response)).Decoded?
    ensures r.Ok? ==> r.value == decode(CleanResponse(response)).analysis
    ensures r.Err? ==> r.error.ValueError?
    ensures decode(CleanResponse(response)).BadJson? ==>
      r.error.message == InvalidJson + decode(CleanResponse(response)).reason
    ensures decode(CleanResponse(response)).BadRecord? ==>
      r.error.message == ParseFailure + decode(CleanResponse(response)).reason
  {
    match decode(CleanResponse(response))
    case Decoded(analysis) => Ok(analysis)
    case BadJson(reason) => Err(ValueError(InvalidJson + reason))
    case BadRecord(reason) => Err(ValueError(ParseFailure + reason))
  }

  // ---------------------------------------------------------------- stand-in analysis

  const Python: string := "Python"
  const Aws: string := "AWS"
  const Docker: string := "Docker"
  const Kubernetes: string := "Kubernetes"
  const GeneralSkills: string := "General IT Skills"
  const Leadership: string := "Leadership"
  const Communication: string := "Communication"
  const Teamwork: string := "Teamwork"
  const ProblemSolving: string := "Problem-solving"

  /** `s in text_lower` for the lower-cased description. */
  predicate Mentions(text: string, s: string) {
    Contains(Lower(text), s)
  }

  const PythonWord: string := "python"
  const AwsWord: string := "aws"
  const AwsName: string := "amazon web services"
  const DockerWord: string := "docker"
  const KubernetesWord: string := "kubernetes"
  const KubernetesShort: string := "k8s"
  const LeadershipWord: string := "leadership"
  const LeadWord: string := "lead"
  const CommunicationWord: string := "communication"
  const TeamWord: string := "team"

  predicate PythonTrigger(text: string) { Mentions(text, PythonWord) }
  predicate AwsTrigger(text: string) { Mentions(text, AwsWord) || Mentions(text, AwsName) }
  predicate DockerTrigger(text: string) { Mentions(text, DockerWord) }
  predicate KubernetesTrigger(text: string) { Mentions(text, KubernetesWord) || Mentions(text, KubernetesShort) }
  predicate LeadershipTrigger(text: string) { Mentions(text, LeadershipWord) || Mentions(text, LeadWord) }
  predicate CommunicationTrigger(text: string) { Mentions(text, CommunicationWord) }
  predicate TeamTrigger(text: string) { Mentions(text, TeamWord) }

  function If(c: bool, s: string): seq<string> {
    if c then [s] else []
  }

  /** The hard skills the triggers found, in the fixed order Python, AWS, Docker, Kubernetes. */
  function FoundHardSkills(text: string): seq<string> {
    If(PythonTrigger(text), Python) + If(AwsTrigger(text), Aws)
    + If(DockerTrigger(text), Docker) + If(KubernetesTrigger(text), Kubernetes)
  }

  /** The soft skills the triggers found, in the fixed order Leadership, Communication, Teamwork. */
  function FoundSoftSkills(text: string): seq<string> {
    If(LeadershipTrigger(text), Leadership) + If(CommunicationTrigger(text), Communication)
    + If(TeamTrigger(text), Teamwork)
  }

  function OrDefault(found: seq<string>, default: seq<string>): seq<string> {
    if found != [] then found else default
  }

  const MockQualifications: seq<string> := ["Bachelor's degree in Computer Science or related field"]
  const MockExperience: string := "3-5 years"
  const MockResponsibilities: seq<string> := [
    "Develop and maintain software applications",
    "Collaborate with cross-functional teams",
    "Participate in code reviews"]
  const MockKeywords: seq<string> := ["software", "development", "technical", "engineering"]
  const MockCulture: seq<string> := ["collaborative", "innovative"]
  const MockNiceToHave: seq<string> := ["Master's degree", "Cloud certifications"]
  const MockVerbs: seq<string> := ["develop", "implement", "design", "collaborate"]
  const MockTitle: string := "Software Engineer"
  const MockLocation: string := "Remote"

  /** The record the stand-in analysis describes (before it is encoded as JSON). */
  function MockAnalysisOf(jobDescription: string): JobAnalysis {
    JobAnalysis(
      hardSkills := OrDefault(FoundHardSkills(jobDescription), [GeneralSkills]),
      softSkills := OrDefault(FoundSoftSkills(jobDescription), [Communication, ProblemSolving]),
      qualifications := MockQualifications,
      experienceRequired := MockExperience,
      keyResponsibilities := MockResponsibilities,
      keywords := MockKeywords,
      cultureKeywords := MockCulture,
      niceToHave := MockNiceToHave,
      actionVerbs := MockVerbs,
      companyName := None,
      jobTitle := Some(MockTitle),
      location := Some(MockLocation))
  }

  /** `_mock_analysis`: the two skill lists grow by conditional appends; JSON encoding is `encode`. */
  method MockAnalysis(jobDescription: string, encode: JobAnalysis -> string) returns (response: string)
    ensures response == encode(MockAnalysisOf(jobDescription))
  {
    var hardSkills: seq<string> := [];
    if PythonTrigger(jobDescription) {
      hardSkills := hardSkills + [Python];
    }
    if AwsTrigger(jobDescription) {
      hardSkills := hardSkills + [Aws];
    }
    if DockerTrigger(jobDescription) {
      hardSkills := hardSkills + [Docker];
    }
    if KubernetesTrigger(jobDescription) {
      hardSkills := hardSkills + [Kubernetes];
    }
    assert hardSkills == FoundHardSkills(jobDescription);
    var softSkills: seq<string> := [];
    if LeadershipTrigger(jobDescription) {
      softSkills := softSkills + [Leadership];
    }
    if CommunicationTrigger(jobDescription) {
      softSkills := softSkills + [Communication];
    }
    if TeamTrigger(jobDescription) {
      softSkills := softSkills + [Teamwork];
    }
    assert softSkills == FoundSoftSkills(jobDescription);
    response := encode(MockAnalysisOf(jobDescription));
  }

  /** Neither skill list of the stand-in analysis is ever empty. */
  lemma MockSkillsNonEmpty(jobDescription: string)
    ensures MockAnalysisOf(jobDescription).hardSkills != []
    ensures MockAnalysisOf(jobDescription).softSkills != []
  {
  }

  /** The hard skills keep the fixed order: they are a subsequence of the four known ones. */
  lemma MockHardSkillsOrdered(text: string)
    ensures IsSubsequence(FoundHardSkills(text), [Python, Aws, Docker, Kubernetes])
  {
    var e: seq<string> := [];
    SubsequenceExtend(e, e, Python, PythonTrigger(text));
    assert e + If(PythonTrigger(text), Python) == If(PythonTrigger(text), Python) && e + [Python] == [Python];
    SubsequenceExtend(If(PythonTrigger(text), Python), [Python], Aws, AwsTrigger(text));
    assert [Python] + [Aws] == [Python, Aws];
    SubsequenceExtend(If(PythonTrigger(text), Python) + If(AwsTrigger(text), Aws), [Python, Aws], Docker, DockerTrigger(text));
    assert [Python, Aws] + [Docker] == [Python, Aws, Docker];
    SubsequenceExtend(If(PythonTrigger(text), Python) + If(AwsTrigger(text), Aws) + If(DockerTrigger(text), Docker),
                      [Python, Aws, Docker], Kubernetes, KubernetesTrigger(text));
    assert [Python, Aws, Docker] + [Kubernetes] == [Python, Aws, Docker, Kubernetes];
  }

  /** Each hard skill is reported exactly when one of its triggers occurs. */
  lemma MockHardSkillTriggers(text: string)
    ensures Python in FoundHardSkills(text) <==> PythonTrigger(text)
    ensures Aws in FoundHardSkills(text) <==> AwsTrigger(text)
    ensures Docker in FoundHardSkills(text) <==> DockerTrigger(text)
    ensures Kubernetes in FoundHardSkills(text) <==> KubernetesTrigger(text)
  {
  }

  /** With no trigger at all, the hard skills default to "General IT Skills". */
  lemma MockHardSkillsDefault(text: string)
    ensures MockAnalysisOf(text).hardSkills == [GeneralSkills] <==>
      !PythonTrigger(text) && !AwsTrigger(text) && !DockerTrigger(text) && !KubernetesTrigger(text)
  {
    var found := FoundHardSkills(text);
    if found != [] {
      assert found[0] in [Python, Aws, Docker, Kubernetes];
    }
  }

  /** "leadership" contains "lead", so the Leadership trigger is just "lead". */
  lemma LeadershipTriggerIsLead(text: string)
    ensures LeadershipTrigger(text) <==> Mentions(text, LeadWord)
  {
    if Mentions(text, LeadershipWord) {
      assert LeadershipWord[0..4] == LeadWord;
      ContainsAt(LeadershipWord, LeadWord, 0);
      ContainsTransitive(Lower(text), LeadershipWord, LeadWord);
    }
  }

  /**
   * Leadership and Teamwork are reported exactly when their triggers occur;
   * Communication also when no trigger occurs, as one of the two defaults.
   */
  lemma MockSoftSkillTriggers(text: string)
    ensures Leadership in MockAnalysisOf(text).softSkills <==> Mentions(text, LeadWord)
    ensures Teamwork in MockAnalysisOf(text).softSkills <==> TeamTrigger(text)
    ensures Communication in MockAnalysisOf(text).softSkills <==>
      CommunicationTrigger(text) || (!LeadershipTrigger(text) && !TeamTrigger(text))
    ensures MockAnalysisOf(text).softSkills == [Communication, ProblemSolving] <==>
      !LeadershipTrigger(text) && !CommunicationTrigger(text) && !TeamTrigger(text)
  {
    LeadershipTriggerIsLead(text);
  }

  // ---------------------------------------------------------------- analyze_job_description

  const PromptOpening: string :=
    "Analyze the following job description and extract all relevant information. Return ONLY a valid JSON object with no additional text or markdown formatting.\n\nJob Description:\n"
  const PromptClosing: string := "\n\nReturn the JSON analysis:"

  /** The user prompt: the description between a fixed opening and closing. */
  function AnalysisPrompt(jobDescription: string): string {
    PromptOpening + jobDescription + PromptClosing
  }

  /**
   * The reply `analyze_job_description` parses: the model's answer to the
   * prompt, or the encoded stand-in analysis when there is no model.
   */
  function ReplyFor(jobDescription: string, generate: Option<string -> Result<string>>,
                    encode: JobAnalysis -> string): Result<string>
  {
    match generate
    case Some(gen) => gen(AnalysisPrompt(jobDescription))
    case None => Ok(encode(MockAnalysisOf(jobDescription)))
  }

  /** Obtains the reply: calls the model, or builds the stand-in analysis. */
  method ObtainReply(jobDescription: string, generate: Option<string -> Result<string>>,
                     encode: JobAnalysis -> string) returns (reply: Result<string>)
    ensures reply == ReplyFor(jobDescription, generate, encode)
  {
    var prompt := AnalysisPrompt(jobDescription);
    match generate {
      case Some(gen) =>
        reply := gen(prompt);
      case None =>
        var response := MockAnalysis(jobDescription, encode);
        reply := Ok(response);
    }
  }

  /**
   * `analyze_job_description`. `generate` stands for the configured language
   * model (`None` when there is none), `encode` and `decode` for JSON. A
   * model failure propagates unchanged; a reply that does not decode is a
   * ValueError.
   */
  method AnalyzeJobDescription(jobDescription: string, generate: Option<string -> Result<string>>,
                               encode: JobAnalysis -> string, decode: string -> Decoding)
    returns (r: Result<JobAnalysis>)
    ensures |Strip(jobDescription)| < 50 ==> r == Err(ValueError(DescriptionTooShort))
    ensures |Strip(jobDescription)| >= 50 && ReplyFor(jobDescription, generate, encode).Err? ==>
      r == Err(ReplyFor(jobDescription, generate, encode).error)
    ensures |Strip(jobDescription)| >= 50 && ReplyFor(jobDescription, generate, encode).Ok? ==>
      r == ParseResponse(ReplyFor(jobDescription, generate, encode).value, decode)
    ensures ReplyFor(jobDescription, generate, encode).Ok? && r.Err? ==> r.error.ValueError?
  {
    if |Strip(jobDescription)| < 50 {
      return Err(ValueError(DescriptionTooShort));
    }
    var reply := ObtainReply(jobDescription, generate, encode);
    if reply.Err? {
      return Err(reply.error);
    }
    r := ParseResponse(reply.value, decode);
  }

  /** An encoded JSON object begins with '{' and ends with '}', so the clean-up leaves it unchanged. */
  lemma CleanJsonObject(s: string)
    requires |s| >= 2 && s[0] == '{' && s[|s| - 1] == '}'
    ensures CleanResponse(s) == s
  {
    StripCharsOfStripped(s, Whitespace);
    BracedNotFenced(s);
    CleanUnfenced(s);
  }

  lemma BracedNotFenced(s: string)
    requires |s| >= 2 && s[0] == '{' && s[|s| - 1] == '}'
    ensures !StartsWith(s, Fence) && !EndsWith(s, Fence)
  {
    if |s| >= 3 {
      assert s[..3][0] == '{';
      assert s[|s| - 3..][2] == '}';
    }
  }

  /** A record encoded as a JSON object parses back to itself when decoding undoes encoding. */
  lemma EncodedRoundTrip(x: JobAnalysis, encode: JobAnalysis -> string, decode: string -> Decoding)
    requires var s := encode(x); |s| >= 2 && s[0] == '{' && s[|s| - 1] == '}'
    requires decode(encode(x)) == Decoded(x)
    ensures ParseResponse(encode(x), decode) == Ok(x)
  {
    CleanJsonObject(encode(x));
  }

  /**
   * Without a model, the stand-in analysis is encoded as a JSON object and
   * parsed back: when decoding undoes encoding, the result is the stand-in
   * record, so it always has skills.
   */
  lemma MockAnalysisRoundTrip(jobDescription: string, encode: JobAnalysis -> string, decode: string -> Decoding)
    requires var s := encode(MockAnalysisOf(jobDescription)); |s| >= 2 && s[0] == '{' && s[|s| - 1] == '}'
    requires decode(encode(MockAnalysisOf(jobDescription))) == Decoded(MockAnalysisOf(jobDescription))
    ensures ReplyFor(jobDescription, None, encode) == Ok(encode(MockAnalysisOf(jobDescription)))
    ensures ParseResponse(ReplyFor(jobDescription, None, encode).value, decode) == Ok(MockAnalysisOf(jobDescription))
    ensures MockAnalysisOf(jobDescription).hardSkills != [] && MockAnalysisOf(jobDescription).softSkills != []
  {
    EncodedRoundTrip(MockAnalysisOf(jobDescription), encode, decode);
    MockSkillsNonEmpty(jobDescription);
  }
}
