/**
 * The parser's keyword finder: a fixed list of common technical and soft
 * skills, each kept when its lower-case form occurs anywhere in the
 * lower-cased text.
 */
module Keywords {
  import opened Text
  import opened Matching

  /** The keywords looked for, in the order they are reported. */
  const CommonKeywords: seq<string> := [
    "Python", "Java", "JavaScript", "C++", "SQL", "AWS", "Azure", "GCP",
    "Docker", "Kubernetes", "CI/CD", "Git", "Agile", "Scrum", "REST",
    "API", "Machine Learning", "ML", "AI", "Data Science", "TensorFlow",
    "PyTorch", "React", "Angular", "Vue", "Node.js", "Django", "Flask",
    "MongoDB", "PostgreSQL", "MySQL", "Redis", "Kafka", "Microservices",
    "Leadership", "Communication", "Team", "Management", "Project Management"
  ]

  /** The loop of `extract_keywords` over a keyword list: keep each keyword that occurs in the text. */
  method KeepOccurring(keywords: seq<string>, text: string) returns (found: seq<string>)
    ensures found == MatchedIn(keywords, text)
  {
    found := [];
    var textLower := Lower(text);
    var i := 0;
    while i < |keywords|
      invariant 0 <= i <= |keywords|
      invariant found == MatchedIn(keywords[..i], text)
    {
      var keyword := keywords[i];
      assert keywords[..i + 1][..i] == keywords[..i];
      if Contains(textLower, Lower(keyword)) {
        found := found + [keyword];
      }
      i := i + 1;
    }
    assert keywords[..i] == keywords;
  }

  /** `extract_keywords`: the common keywords that occur in the text, in list order. */
  method ExtractKeywords(text: string) returns (found: seq<string>)
    ensures found == MatchedIn(CommonKeywords, text)
  {
    found := KeepOccurring(CommonKeywords, text);
  }

  /** A keyword is reported exactly when it is on the list and occurs in the text, ignoring case. */
  lemma KeywordsFound(text: string, k: string)
    ensures k in MatchedIn(CommonKeywords, text) <==> k in CommonKeywords && MatchesCI(k, text)
  {
    MatchedInMembers(CommonKeywords, text, k);
  }

  /** The keywords are reported in list order, each at most as often as it is listed. */
  lemma KeywordsOrdered(text: string)
    ensures IsSubsequence(MatchedIn(CommonKeywords, text), CommonKeywords)
    ensures |MatchedIn(CommonKeywords, text)| <= |CommonKeywords|
  {
    MatchedInSubsequence(CommonKeywords, text);
    SubsequenceLength(MatchedIn(CommonKeywords, text), CommonKeywords);
  }

  /** Letter case in the text does not matter: upper-casing it reports the same keywords. */
  lemma KeywordsIgnoreCase(text: string)
    ensures MatchedIn(CommonKeywords, Upper(text)) == MatchedIn(CommonKeywords, text)
  {
    CountMatchedUpper(CommonKeywords, text);
  }

  /** Adding text never loses a keyword already found. */
  lemma KeywordsMonotone(text: string, more: string)
    ensures IsSubsequence(MatchedIn(CommonKeywords, text), MatchedIn(CommonKeywords, text + more))
  {
    MatchedInMonotone(CommonKeywords, text, more);
  }
}
