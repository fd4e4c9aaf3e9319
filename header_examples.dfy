/**
 * Section-name normalisation on the headers the rule order is about: each
 * example shows which rules stay silent on the key and which rule fires first.
 */
module HeaderExamples {
  import opened Text
  import opened Headers

  lemma Absent(key: string, word: string, c: char)
    requires c in word && c !in key
    ensures !Contains(key, word)
  {
    if Contains(key, word) { ContainedChars(key, word, c); }
  }

  lemma KeyOfPlainHeader(header: string, key: string)
    requires header != [] && !IsSpace(header[0]) && !IsSpace(header[|header| - 1]) && header[|header| - 1] != ':'
    requires key == Upper(header)
    ensures HeaderKey(header) == key
  {
    StripCharsOfStripped(header, Whitespace);
  }

  lemma WorkExperienceSkips0()
    ensures !Fires("WORK EXPERIENCE", NameRules[0])
  {
    Absent("WORK EXPERIENCE", "SUMMARY", 'S');
    Absent("WORK EXPERIENCE", "PROFILE", 'F');
    Absent("WORK EXPERIENCE", "OBJECTIVE", 'B');
  }

  lemma WorkExperienceFires()
    ensures FirstFiring("WORK EXPERIENCE", NameRules, 1)
  {
    WorkExperienceSkips0();
    ContainsAt("WORK EXPERIENCE", "EXPERIENCE", 5);
    assert Contains("WORK EXPERIENCE", NameRules[1].keywords[0]);
  }

  lemma WorkExperienceKey()
    ensures HeaderKey("WORK EXPERIENCE") == "WORK EXPERIENCE"
  {
    KeyOfPlainHeader("WORK EXPERIENCE", "WORK EXPERIENCE");
  }

  lemma WorkExperienceRule()
    ensures ApplyNameRules("WORK EXPERIENCE", NameRules) == "Work Experience"
  {
    WorkExperienceFires();
    ApplyNameRulesFirst("WORK EXPERIENCE", NameRules, 1);
    assert NameRules[1].name == "Work Experience";
  }

  lemma WorkExperienceUnfold()
    ensures NormalizeSectionName("WORK EXPERIENCE") == ApplyNameRules(HeaderKey("WORK EXPERIENCE"), NameRules)
  {
  }

  /** "WORK EXPERIENCE" is the work-experience section. */
  lemma NormalizeWorkExperience()
    ensures NormalizeSectionName("WORK EXPERIENCE") == "Work Experience"
  {
    WorkExperienceUnfold();
    WorkExperienceKey();
    WorkExperienceRule();
  }

  lemma CoreCompetenciesSkips0()
    ensures !Fires("CORE COMPETENCIES", NameRules[0])
  {
    Absent("CORE COMPETENCIES", "SUMMARY", 'U');
    Absent("CORE COMPETENCIES", "PROFILE", 'F');
    Absent("CORE COMPETENCIES", "OBJECTIVE", 'B');
  }

  lemma CoreCompetenciesSkips1()
    ensures !Fires("CORE COMPETENCIES", NameRules[1])
  {
    Absent("CORE COMPETENCIES", "EXPERIENCE", 'X');
    Absent("CORE COMPETENCIES", "EMPLOYMENT", 'L');
  }

  lemma CoreCompetenciesSkips2()
    ensures !Fires("CORE COMPETENCIES", NameRules[2])
  {
    Absent("CORE COMPETENCIES", "EDUCATION", 'D');
    Absent("CORE COMPETENCIES", "ACADEMIC", 'A');
  }

  lemma CoreCompetenciesFires()
    ensures FirstFiring("CORE COMPETENCIES", NameRules, 3)
  {
    CoreCompetenciesSkips0();
    CoreCompetenciesSkips1();
    CoreCompetenciesSkips2();
    ContainsAt("CORE COMPETENCIES", "COMPETENC", 5);
    assert Contains("CORE COMPETENCIES", NameRules[3].keywords[1]);
  }

  lemma CoreCompetenciesKey()
    ensures HeaderKey("Core Competencies") == "CORE COMPETENCIES"
  {
    KeyOfPlainHeader("Core Competencies", "CORE COMPETENCIES");
  }

  lemma CoreCompetenciesRule()
    ensures ApplyNameRules("CORE COMPETENCIES", NameRules) == "Skills"
  {
    CoreCompetenciesFires();
    ApplyNameRulesFirst("CORE COMPETENCIES", NameRules, 3);
    assert NameRules[3].name == "Skills";
  }

  lemma CoreCompetenciesUnfold()
    ensures NormalizeSectionName("Core Competencies") == ApplyNameRules(HeaderKey("Core Competencies"), NameRules)
  {
  }

  /** "Core Competencies" is the skills section. */
  lemma NormalizeCoreCompetencies()
    ensures NormalizeSectionName("Core Competencies") == "Skills"
  {
    CoreCompetenciesUnfold();
    CoreCompetenciesKey();
    CoreCompetenciesRule();
  }

  lemma VolunteerExperienceSkips0()
    ensures !Fires("VOLUNTEER EXPERIENCE", NameRules[0])
  {
    Absent("VOLUNTEER EXPERIENCE", "SUMMARY", 'S');
    Absent("VOLUNTEER EXPERIENCE", "PROFILE", 'F');
    Absent("VOLUNTEER EXPERIENCE", "OBJECTIVE", 'B');
  }

  lemma VolunteerExperienceFires()
    ensures FirstFiring("VOLUNTEER EXPERIENCE", NameRules, 1)
  {
    VolunteerExperienceSkips0();
    ContainsAt("VOLUNTEER EXPERIENCE", "EXPERIENCE", 10);
    assert Contains("VOLUNTEER EXPERIENCE", NameRules[1].keywords[0]);
  }

  lemma VolunteerExperienceKey()
    ensures HeaderKey("Volunteer Experience") == "VOLUNTEER EXPERIENCE"
  {
    KeyOfPlainHeader("Volunteer Experience", "VOLUNTEER EXPERIENCE");
  }

  lemma VolunteerExperienceRule()
    ensures ApplyNameRules("VOLUNTEER EXPERIENCE", NameRules) == "Work Experience"
  {
    VolunteerExperienceFires();
    ApplyNameRulesFirst("VOLUNTEER EXPERIENCE", NameRules, 1);
    assert NameRules[1].name == "Work Experience";
  }

  lemma VolunteerExperienceUnfold()
    ensures NormalizeSectionName("Volunteer Experience") == ApplyNameRules(HeaderKey("Volunteer Experience"), NameRules)
  {
  }

  /** EXPERIENCE is tried before VOLUNTEER, so "Volunteer Experience" becomes "Work Experience". */
  lemma NormalizeVolunteerExperience()
    ensures NormalizeSectionName("Volunteer Experience") == "Work Experience"
  {
    VolunteerExperienceUnfold();
    VolunteerExperienceKey();
    VolunteerExperienceRule();
  }

  lemma LanguageSkillsSkips0()
    ensures !Fires("LANGUAGE SKILLS", NameRules[0])
  {
    Absent("LANGUAGE SKILLS", "SUMMARY", 'M');
    Absent("LANGUAGE SKILLS", "PROFILE", 'P');
    Absent("LANGUAGE SKILLS", "OBJECTIVE", 'O');
  }

  lemma LanguageSkillsSkips1()
    ensures !Fires("LANGUAGE SKILLS", NameRules[1])
  {
    Absent("LANGUAGE SKILLS", "EXPERIENCE", 'X');
    Absent("LANGUAGE SKILLS", "EMPLOYMENT", 'M');
  }

  lemma LanguageSkillsSkips2()
    ensures !Fires("LANGUAGE SKILLS", NameRules[2])
  {
    Absent("LANGUAGE SKILLS", "EDUCATION", 'D');
    Absent("LANGUAGE SKILLS", "ACADEMIC", 'C');
  }

  lemma LanguageSkillsFires()
    ensures FirstFiring("LANGUAGE SKILLS", NameRules, 3)
  {
    LanguageSkillsSkips0();
    LanguageSkillsSkips1();
    LanguageSkillsSkips2();
    ContainsAt("LANGUAGE SKILLS", "SKILL", 9);
    assert Contains("LANGUAGE SKILLS", NameRules[3].keywords[0]);
  }

  lemma LanguageSkillsKey()
    ensures HeaderKey("Language Skills") == "LANGUAGE SKILLS"
  {
    KeyOfPlainHeader("Language Skills", "LANGUAGE SKILLS");
  }

  lemma LanguageSkillsRule()
    ensures ApplyNameRules("LANGUAGE SKILLS", NameRules) == "Skills"
  {
    LanguageSkillsFires();
    ApplyNameRulesFirst("LANGUAGE SKILLS", NameRules, 3);
    assert NameRules[3].name == "Skills";
  }

  lemma LanguageSkillsUnfold()
    ensures NormalizeSectionName("Language Skills") == ApplyNameRules(HeaderKey("Language Skills"), NameRules)
  {
  }

  /** SKILL is tried before LANGUAGE, so "Language Skills" becomes "Skills". */
  lemma NormalizeLanguageSkills()
    ensures NormalizeSectionName("Language Skills") == "Skills"
  {
    LanguageSkillsUnfold();
    LanguageSkillsKey();
    LanguageSkillsRule();
  }
}
