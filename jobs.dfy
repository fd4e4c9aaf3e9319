/**
 * The job-posting record the agents exchange. Its Python definition (a
 * pydantic model) is not part of this model; the fields below are the ones
 * the agents read and the ones the mock analysis fills in.
 */
module Jobs {
  import opened Wrappers

  datatype JobAnalysis = JobAnalysis(
    hardSkills: seq<string>,
    softSkills: seq<string>,
    qualifications: seq<string>,
    experienceRequired: string,
    keyResponsibilities: seq<string>,
    keywords: seq<string>,
    cultureKeywords: seq<string>,
    niceToHave: seq<string>,
    actionVerbs: seq<string>,
    companyName: Option<string>,
    jobTitle: Option<string>,
    location: Option<string>
  )
}
