# Agentic-ResumeMatcher: the text-processing core in Dafny

Agentic-ResumeMatcher tailors a resume to a job posting with the help of a
language model. Around the model calls sits a deterministic layer of string
and list work, and that layer is modelled here:

- the resume parser: the section splitter, header detection and section-name
  normalisation, bullet extraction, the contact-detail selection and the
  keyword finder;
- the resume tailor: the resume length guard, the tailoring prompt, the
  stand-in answer used without a model, the match score, the matched-keyword
  filter and the rule-based suggestions;
- the keyword extractor: the description length guard, the clean-up of the
  model's reply (trim, drop one layer of code fences, trim again), error
  mapping around decoding, and the stand-in analysis;
- the validators: output format, job description, file path, file extension
  and `sanitize_filename`;
- the file writer: the format check, job-title sanitising and file naming, the
  text and Markdown content, the comparison document, and the PDF story (line
  classification and the escaping of plain paragraphs).

Modules, one concept each:

| module | file | holds |
|---|---|---|
| `Wrappers` | wrappers.dfy | `Option`, `Result`, the two exception kinds, Python truthiness of an optional string |
| `Text` | text.dfy | the `str` built-ins over ASCII: `lower`, `upper`, `isupper`, `istitle`, `title`, `strip`, `split`, `join`, `in`, `startswith`, `replace` |
| `Matching` | matching.dfy | the case-insensitive "item occurs in text" filter and count shared by the parser and the tailor |
| `Jobs` | jobs.dfy | the `JobAnalysis` record |
| `Headers`, `HeaderExamples` | headers.dfy, header_examples.dfy | `_is_section_header`, `_normalize_section_name` and the precedence examples |
| `Bullets` | bullets.dfy | `_extract_bullet_points` |
| `Sections` | sections.dfy | `_split_into_sections`, `_create_section` |
| `Contact` | contact.dfy | `_extract_contact_info` |
| `Keywords` | keywords.dfy | `extract_keywords` |
| `Tailor` | tailor.dfy | the resume tailor |
| `Extractor` | analysis.dfy | the keyword extractor |
| `Validators` | validators.dfy | the validators |
| `Escaping` | escape.dfy | the three `replace` calls that escape a PDF paragraph, and their inverse |
| `FileWriter` | file_writer.dfy | the file writer, with the class `FileWriterTool` |

Loops and step-by-step append sequences in the source are methods, each proved
equal to a specification function. The loops carry loop invariants: the
section scan, the bullet loop, the contact-name loop, the keyword loop and the
PDF story. The prompt assembly, the suggestion list and the stand-in analysis
have no loop; they are straight-line appends. The properties are proved about
the specification functions.
The PDF story builds plain paragraphs with a character-by-character escape.
`Escaping.EscapeCharwise` proves it equal to the source's three chained
replacements.

## Model

| member | source | states |
|---|---|---|
| Sections.CreateSection | src/tools/parser.py:186-204 | the section holds the lines joined with "\n" and the bullets found in that text |
| Sections.ScanLine | src/tools/parser.py:85-102 | one line of the scan: a header emits the open section when it has a name and content, then opens a new one; a non-blank line of an open section is kept unstripped; other lines change nothing |
| Sections.ScanLines | src/tools/parser.py:80-106 | the loop leaves the state of the line-by-line scan, and the emitted sections are built from its groups |
| Sections.EmitOpen | src/tools/parser.py:104-106 | the sections after the loop are those of the scan's groups once the open section is closed: it is added, last, exactly when it has a name and gathered a line |
| Sections.SplitIntoSections | src/tools/parser.py:70-118 | the result is the scan's sections, or the single fallback section when none was emitted |
| Sections.RunInvariants | src/tools/parser.py:85-106 | after any prefix of the lines: every emitted group is named and non-empty; emitted plus open content is exactly the body lines so far; a section is open exactly when a header was seen; names follow header order |
| Sections.GroupsShape | src/tools/parser.py:91-106 | every emitted section has a name and at least one line, and holds only non-blank, non-header lines |
| Sections.GroupsContent | src/tools/parser.py:99-102 | nothing is dropped or duplicated: the sections hold exactly the non-blank, non-header lines after the first header, unstripped and in order |
| Sections.GroupsOrder | src/tools/parser.py:91-98 | sections are emitted in encounter order: their names are a subsequence of the header names |
| Sections.GroupsEmpty | src/tools/parser.py:104-109 | no section is emitted exactly when no body line follows a header |
| Sections.AdjacentHeaders | src/tools/parser.py:91-98 | two headers in a row: the first one's section is never emitted |
| Sections.PreambleDropped | src/tools/parser.py:99-102 | lines before the first header belong to no section |
| Sections.BlankLineIgnored | src/tools/parser.py:86-102 | a blank line never changes the scan |
| Sections.RunBody | src/tools/parser.py:99-102 | under an open section, body lines are gathered one after another, in order |
| Sections.RunSection | src/tools/parser.py:91-102 | a header line followed by body lines closes the open section (emitted if it gathered lines) and leaves the header's section open with exactly those lines |
| Sections.RunUnsplit | src/tools/parser.py:85-106 | scanning sections written back under header lines that name them leaves the last one open with its lines and the others emitted |
| Sections.UnsplitGroups | src/tools/parser.py:85-106 | well-formed sections written back, each under a header line naming it, are split back into exactly those sections |
| Sections.SegmentIdempotent | src/tools/parser.py:70-106 | writing the emitted sections back, each under a header line that names it, above its lines, and splitting again gives the same sections, for any header detector and blank-line test |
| Sections.HeaderLineOf | src/tools/parser.py:89-91 | every header name comes from some line that the detector names so |
| Sections.SegmentIdempotentOnInput | src/tools/parser.py:70-106 | for every input there are header lines, taken from the input, one per emitted section and each naming it, under which re-splitting the written-back sections gives the same sections |
| Sections.RunAppend | src/tools/parser.py:85-102 | scanning a concatenation continues the scan from where the first part left off |
| Sections.MakeSectionsLength | src/tools/parser.py:94-106 | one section per emitted group |
| Sections.SectionsFallback | src/tools/parser.py:108-116 | no body lines: exactly one "Full Resume" section holding the unmodified text; otherwise the emitted sections in order |
| Sections.SectionBullets | src/tools/parser.py:197-198 | joining a section's lines and splitting them again gives them back, so its bullets are those of its lines |
| Text.SplitJoin | src/tools/parser.py:197 | splitting lines joined with "\n" gives the lines back when none holds a "\n" |
| Text.JoinSplit | src/tools/parser.py:80 | joining the pieces of a split with the separator gives the text back |
| Headers.SectionPatternsWellFormed | src/tools/parser.py:18-31 | every alternative of the twelve patterns begins with a non-empty upper-case word |
| Headers.KnownHeaderStartsWithLetter | src/tools/parser.py:131-135 | a line a known pattern matches begins with a letter |
| Headers.SectionHeaderCases | src/tools/parser.py:131-144 | a line is a header exactly when a known title starts it, or it is shorter than 50 characters and upper-case or title-case; a known title gets the normalised name |
| Headers.CasedHeaderName | src/tools/parser.py:139-142 | a header found by its letter case is named by itself, trailing colons removed, then stripped |
| Headers.EmptyLineNotHeader | src/tools/parser.py:139 | the empty line is never a header |
| Headers.SectionHeaderNamed | src/tools/parser.py:131-142 | every header gets a non-empty name |
| Headers.KnownHeaderKey | src/tools/parser.py:156 | a known header's upper-cased, colon-trimmed key is not empty |
| Headers.KnownHeaderNamed | src/tools/parser.py:134 | a known header always gets a non-empty name |
| Headers.CasedHeaderNamed | src/tools/parser.py:139-142 | an upper-case or title-case line keeps a letter after colon-trimming and stripping |
| Headers.NameRulesNamed | src/tools/parser.py:159-182 | every rule's section name is non-empty |
| Headers.ApplyNameRulesFirst | src/tools/parser.py:159-182 | first match wins: the name is that of the earliest rule one of whose keywords occurs in the key |
| Headers.ApplyNameRulesNone | src/tools/parser.py:183-184 | when no rule fires, the key is title-cased |
| Headers.ApplyNamesNonEmpty | src/tools/parser.py:156-184 | a non-empty key always gets a non-empty name |
| Headers.NormalizePrecedence | src/tools/parser.py:156-184 | the normalised name is the first firing rule's name, in the fixed order, or the title-cased key |
| HeaderExamples.NormalizeWorkExperience | src/tools/parser.py:161-162 | "WORK EXPERIENCE" is named "Work Experience" |
| HeaderExamples.NormalizeCoreCompetencies | src/tools/parser.py:165-166 | "Core Competencies" is named "Skills" |
| HeaderExamples.NormalizeVolunteerExperience | src/tools/parser.py:161-176 | "Volunteer Experience" is named "Work Experience": the EXPERIENCE rule comes before the VOLUNTEER rule |
| HeaderExamples.NormalizeLanguageSkills | src/tools/parser.py:165-178 | "Language Skills" is named "Skills": the SKILL rule comes before the LANGUAGE rule |
| Bullets.MarkerLength | src/tools/parser.py:217-219 | the marker of each pattern: one glyph of the class, one '*', or one or more digits and a '.' |
| Bullets.CaptureAfterMarker | src/tools/parser.py:217-219 | `\s+(.+)$` matches exactly when whitespace follows the marker and something follows it; the capture is a non-empty suffix |
| Bullets.MatchBullet | src/tools/parser.py:227 | a pattern's capture is a non-empty suffix of the line |
| Bullets.TryPatterns | src/tools/parser.py:226-230 | the inner loop gives the stripped capture of the first pattern that matches, or nothing |
| Bullets.ExtractBulletPoints | src/tools/parser.py:206-232 | the bullets are, line by line in order, the stripped capture of each line's first matching pattern |
| Bullets.LineBulletCases | src/tools/parser.py:216-230 | the patterns are tried in the fixed order symbol, asterisk, number |
| Bullets.BulletPatternsExclusive | src/tools/parser.py:216-220 | no line matches two of the patterns |
| Bullets.LineBulletShape | src/tools/parser.py:227-229 | a line yields a bullet exactly when a pattern matches it; the bullet is stripped and is a piece of the line |
| Bullets.BulletsOfLinesCount | src/tools/parser.py:225-230 | at most one bullet per line, and one for every line exactly when every line is a bullet line |
| Bullets.BulletsOfLinesAppend | src/tools/parser.py:225-230 | bullets accumulate line by line, in line order |
| Bullets.SymbolBulletCapture | src/tools/parser.py:217 | a glyph, a space and text not starting with whitespace capture that text |
| Bullets.DashBulletExample | src/tools/parser.py:217-229 | "- Led a team of 5 engineers" gives "Led a team of 5 engineers" |
| Contact.PhoneAsWritten | src/tools/parser.py:252-256 | the phone value as written is the pattern's only group, the country-code prefix |
| Contact.Phone | src/tools/parser.py:252-256 | the phone value evidently meant: the whole matched number |
| Contact.PhoneAsWrittenLosesNumber | src/tools/parser.py:35 | for "415-555-0100" the value kept as written is "" |
| Contact.OtherUrlsMembers | src/tools/parser.py:267 | an address is kept exactly when it was found and does not contain "linkedin.com", ignoring case |
| Contact.OtherUrlsFirst | src/tools/parser.py:267-269 | the first kept address is the first found address that is not a LinkedIn one |
| Contact.OtherUrlsNone | src/tools/parser.py:267-268 | when every address is a LinkedIn one, none is kept |
| Contact.NoDigitNoPhoneShape | src/tools/parser.py:276-279 | a line without a digit never has a phone-number shape |
| Contact.PhoneCheckRedundant | src/tools/parser.py:276-279 | the phone-shape test never rejects a line the digit test let through |
| Contact.FirstCandidateNone | src/tools/parser.py:273-281 | no name is guessed exactly when no stripped line passes the test |
| Contact.FirstCandidateAt | src/tools/parser.py:273-281 | the name is the first stripped line that passes the test |
| Contact.FirstCandidateSome | src/tools/parser.py:273-281 | a guessed name passes the test and is one of the lines, stripped |
| Contact.FillSearchedFields | src/tools/parser.py:244-269 | the four searches fill the e-mail, phone, LinkedIn and website entries in turn; the phone entry is the value `re.findall` gives, the country-code group |
| Contact.ExtractContactInfo | src/tools/parser.py:234-284 | the dictionary the code returns: the searched entries, as written, plus the first name candidate among the first five lines |
| Contact.ContactKeysKnown | src/tools/parser.py:244-281 | the keys are among email, phone, linkedin, website and name |
| Contact.ContactEmail | src/tools/parser.py:247-249 | an e-mail entry exactly when an address was found; it is the first one |
| Contact.ContactPhone | src/tools/parser.py:252-256 | a phone entry exactly when a number was found; it holds the first match's country-code group, not the number |
| Contact.ContactDictIntended | src/tools/parser.py:252-256 | the corrected dictionary: a phone entry exactly when a number was found, holding the first whole number |
| Contact.ContactDictsAgree | src/tools/parser.py:244-281 | the corrected dictionary has the same keys and differs only in the phone entry |
| Contact.ContactDictLosesNumber | src/tools/parser.py:35 | for a resume whose only number is "415-555-0100", the dictionary's phone entry is "" while the corrected one is the number |
| Contact.ContactLinkedIn | src/tools/parser.py:259-261 | a LinkedIn entry exactly when a profile was found; it is "https://" and the first one |
| Contact.ContactWebsite | src/tools/parser.py:264-269 | the website is the first address found that is not a LinkedIn one |
| Contact.ContactNoWebsite | src/tools/parser.py:264-269 | no website entry when every address is a LinkedIn one |
| Contact.NameEntry | src/tools/parser.py:280 | a name entry exactly when a name was guessed, holding that name |
| Contact.ContactName | src/tools/parser.py:272-281 | a name passes the test and is one of the first five lines, stripped |
| Contact.ContactFirstName | src/tools/parser.py:272-281 | the name is the first of the first five lines that passes the test |
| Contact.ContactNoName | src/tools/parser.py:272-281 | no name exactly when none of the first five lines passes the test |
| Contact.ContactNameShape | src/tools/parser.py:276-279 | a name is non-empty, shorter than 50 characters, and holds no digit and no '@' |
| Keywords.KeepOccurring | src/tools/parser.py:307-314 | the loop keeps, in list order, each keyword whose lower-case form occurs in the lower-cased text |
| Keywords.ExtractKeywords | src/tools/parser.py:286-314 | the common keywords that occur in the text, in list order |
| Keywords.KeywordsFound | src/tools/parser.py:310-312 | a keyword is reported exactly when it is listed and occurs, ignoring case |
| Keywords.KeywordsOrdered | src/tools/parser.py:298-314 | the result is a subsequence of the fixed list |
| Keywords.KeywordsIgnoreCase | src/tools/parser.py:308-311 | upper-casing the text reports the same keywords |
| Keywords.KeywordsMonotone | src/tools/parser.py:310-312 | appending text never loses a keyword |
| Matching.MatchedInMembers | src/agents/resume_tailor.py:317-320 | an item is kept exactly when it is in the list and occurs in the text, ignoring case |
| Matching.MatchedInSubsequence | src/agents/resume_tailor.py:317-320 | the kept items are a subsequence of the list |
| Matching.MatchedInCount | src/agents/resume_tailor.py:287-290 | the count of matching items is the length of the kept list |
| Matching.CountMatchedAppend | src/agents/resume_tailor.py:278-290 | the count over a concatenation is the sum of the counts, so a repeated item counts each time |
| Matching.CountMatchedBounds | src/agents/resume_tailor.py:287-293 | the count is at most the number of items, and equals it exactly when every item matches |
| Matching.CountMatchedMonotone | src/agents/resume_tailor.py:287-290 | appending text never lowers the count |
| Matching.MatchedInMonotone | src/agents/resume_tailor.py:317-320 | appending text keeps every earlier match, in order |
| Matching.CountMatchedCaseInsensitive | src/agents/resume_tailor.py:275-289 | texts equal up to letter case give the same count and the same kept items |
| Tailor.BuildTailoringPrompt | src/agents/resume_tailor.py:140-209 | the list of pieces grows by appends and extends and is joined with "\n" into the prompt |
| Tailor.PromptPartCount | src/agents/resume_tailor.py:157-207 | 19 fixed pieces, one per present title, company, qualifications and culture line, four for a given description |
| Tailor.PromptQuotesResume | src/agents/resume_tailor.py:159-162 | the resume appears verbatim between two fence lines |
| Tailor.PromptUsesListPrefixes | src/agents/resume_tailor.py:178-180 | only the first 5 responsibilities, 15 keywords and 10 action verbs reach the prompt |
| Tailor.PromptUsesDescriptionPrefix | src/agents/resume_tailor.py:190-196 | only the first 2000 characters of the description reach the prompt |
| Tailor.TitleOrDefault | src/agents/resume_tailor.py:246 | the title used is never empty |
| Tailor.MockEmbedsResume | src/agents/resume_tailor.py:248-257 | the stand-in answer contains the resume unchanged |
| Tailor.MockUsesFirstFiveSkills | src/agents/resume_tailor.py:245 | only the first five hard skills matter to the stand-in answer |
| Tailor.MockTitleFallback | src/agents/resume_tailor.py:246 | a missing or empty title reads as "Target Position" |
| Tailor.TailorResume | src/agents/resume_tailor.py:90-138 | a stripped resume under 100 characters is a ValueError before any prompt; otherwise the model's answer to the prompt, or the stand-in answer without a model |
| Tailor.MatchScore | src/agents/resume_tailor.py:260-297 | the score lies between 0 and 100, and is 0 when there are no required items |
| Tailor.ScoreFull | src/agents/resume_tailor.py:284-293 | the score is 100 exactly when there are items and every one occurs in the resume |
| Tailor.ScoreMonotone | src/agents/resume_tailor.py:287-293 | appending text to the resume never lowers the score |
| Tailor.ScoreIgnoresCase | src/agents/resume_tailor.py:275-289 | the score ignores the resume's letter case |
| Tailor.ScoreCountsEachList | src/agents/resume_tailor.py:278-290 | the count is the sum over hard skills, soft skills and keywords, duplicates included |
| Tailor.IdentifyMatchedKeywords | src/agents/resume_tailor.py:299-322 | the matched keywords are a subsequence of the keyword list, as many as the count of matching keywords |
| Tailor.MatchedKeywordsMembers | src/agents/resume_tailor.py:317-320 | a keyword is reported exactly when it is listed and occurs, ignoring case |
| Tailor.MissingFromMembers | src/agents/resume_tailor.py:347-350 | a skill is missing exactly when it is listed and does not occur, ignoring case |
| Tailor.MissingFromEmpty | src/agents/resume_tailor.py:347-352 | nothing is missing exactly when every listed skill occurs |
| Tailor.Suggest | src/agents/resume_tailor.py:352-379 | one rule appends its message exactly when it fires |
| Tailor.GenerateSuggestions | src/agents/resume_tailor.py:324-381 | the messages of the four rules that fire, in rule order |
| Tailor.SuggestionRules | src/agents/resume_tailor.py:341-381 | at most four suggestions; each kind appears exactly when its rule fires |
| Tailor.SuggestionOrder | src/agents/resume_tailor.py:341-381 | the suggestions follow the fixed order missing skills, metrics, action verbs, certifications |
| Tailor.MissingSkillsListed | src/agents/resume_tailor.py:344-350 | the missing-skills message lists exactly the first five hard skills that do not occur |
| Tailor.MissingSkillsRuleFires | src/agents/resume_tailor.py:344-352 | the missing-skills rule fires exactly when one of the first five hard skills does not occur |
| Extractor.CleanResponseSlice | src/agents/keyword_extractor.py:159-169 | the cleaned reply is a contiguous piece of the reply |
| Extractor.CleanUnfenced | src/agents/keyword_extractor.py:159-169 | a reply without fences is only stripped |
| Extractor.CleanFenced | src/agents/keyword_extractor.py:159-169 | "```json" or "```", a line break, a stripped body, a line break and "```" clean to the body |
| Extractor.DropJsonFence | src/agents/keyword_extractor.py:161-162 | a leading "```json" is dropped |
| Extractor.DropPlainFence | src/agents/keyword_extractor.py:163-164 | a leading "```" not followed by "json" is dropped |
| Extractor.DropFinalFence | src/agents/keyword_extractor.py:166-167 | one trailing "```" is dropped |
| Extractor.ParseResponse | src/agents/keyword_extractor.py:144-185 | the analysis exactly when the cleaned reply decodes; every failure is a ValueError, whose message is "Invalid JSON response from LLM: " plus the reason for a decoding failure and "Failed to parse LLM response: " plus the reason for a record that cannot be built |
| Extractor.MockAnalysis | src/agents/keyword_extractor.py:187-237 | the conditional appends build the stand-in record, which is then encoded |
| Extractor.MockSkillsNonEmpty | src/agents/keyword_extractor.py:219-220 | neither skill list of the stand-in analysis is empty |
| Extractor.MockHardSkillsOrdered | src/agents/keyword_extractor.py:200-208 | the hard skills found are a subsequence of Python, AWS, Docker, Kubernetes |
| Extractor.MockHardSkillTriggers | src/agents/keyword_extractor.py:201-208 | each hard skill is reported exactly when one of its triggers occurs |
| Extractor.MockHardSkillsDefault | src/agents/keyword_extractor.py:219 | the hard skills are "General IT Skills" alone exactly when no trigger occurs |
| Extractor.LeadershipTriggerIsLead | src/agents/keyword_extractor.py:211 | the Leadership trigger is the same as "lead" occurring |
| Extractor.MockSoftSkillTriggers | src/agents/keyword_extractor.py:210-220 | Leadership iff "lead", Teamwork iff "team", Communication iff "communication" or no trigger at all; the defaults exactly when no trigger occurs |
| Extractor.ObtainReply | src/agents/keyword_extractor.py:103-108 | the model's reply to the prompt, or the encoded stand-in analysis without a model |
| Extractor.AnalyzeJobDescription | src/agents/keyword_extractor.py:87-120 | a stripped description under 50 characters is a ValueError; a model failure propagates; otherwise the parsed reply, so a reply that does not parse is a ValueError |
| Extractor.CleanJsonObject | src/agents/keyword_extractor.py:159-169 | text that begins with '{' and ends with '}' leaves the clean-up unchanged |
| Extractor.EncodedRoundTrip | src/agents/keyword_extractor.py:159-177 | a record encoded as a JSON object parses back to itself when decoding undoes encoding |
| Extractor.MockAnalysisRoundTrip | src/agents/keyword_extractor.py:103-111 | without a model the reply is the encoded stand-in record; encoded as a JSON object that decoding undoes, it parses back to that record, whose skill lists are non-empty |
| Validators.ValidateOutputFormat | src/utils/validators.py:33-56 | the lower-cased, stripped format exactly when it is markdown, md, txt or pdf; otherwise a ValueError |
| Validators.NormalisedFormat | src/utils/validators.py:48 | the returned format is lower-case already |
| Validators.OutputFormatIdempotent | src/utils/validators.py:46-56 | validating an accepted format again returns it unchanged |
| Validators.ValidateJobDescription | src/utils/validators.py:114-137 | accepted exactly when the stripped text is non-empty and at least the minimum long; blank text is the "empty" ValueError |
| Validators.DefaultDescriptionGuard | src/utils/validators.py:114 | with the default minimum, accepted exactly when at least 50 characters remain after stripping |
| Validators.DescriptionGuardMonotone | src/utils/validators.py:131 | a stricter minimum never accepts more |
| Validators.ValidateFilePath | src/utils/validators.py:7-30 | a blank path is a ValueError before any existence check; a missing file that must exist is a FileNotFoundError |
| Validators.RFind | src/utils/validators.py:160 | the last index of the character, or -1 |
| Validators.Suffix | src/utils/validators.py:103 | a suffix is empty, or a dot followed by at least one character and no further dot |
| Validators.ValidateFileExtension | src/utils/validators.py:88-111 | accepted exactly when the lower-cased suffix equals a lower-cased allowed extension; otherwise a ValueError |
| Validators.SuffixOfFileName | src/utils/validators.py:103 | "stem.ext" has suffix ".ext" |
| Validators.NoSuffixNeedsEmpty | src/utils/validators.py:103-105 | a path without suffix passes only when "" is allowed |
| Validators.ReplaceInvalid | src/utils/validators.py:152-153 | each invalid character becomes '_', one for one; every other character is kept |
| Validators.SplitExtension | src/utils/validators.py:160 | with a dot: the text before and after the last dot; without: the text and "" |
| Validators.SanitizeFilename | src/utils/validators.py:140-164 | the result is never empty |
| Validators.SanitizeFits | src/utils/validators.py:152-164 | when the cleaned name fits, it is returned as it is, or "untitled" when nothing is left, and neither end is '.' or ' ' |
| Validators.SanitizeNoInvalid | src/utils/validators.py:152-164 | no invalid character survives |
| Validators.SanitizeKeepsExtension | src/utils/validators.py:159-162 | when the extension and its dot fit, the result fits and ends with the original last extension |
| Validators.SanitizeTruncates | src/utils/validators.py:159-162 | without a dot, the first max_length characters |
| Validators.SanitizeOverlong | src/utils/validators.py:159-162 | when the extension does not fit, the result is longer than max_length |
| Validators.SanitizeOverlongExample | src/utils/validators.py:159-162 | "a.bcdefgh" limited to 5 characters comes out as ".bcdefgh" |
| Validators.LimitLengthBounded | src/utils/validators.py:159-162 | the corrected limit never exceeds max_length |
| Validators.SanitizeFilenameBounded | src/utils/validators.py:140-164 | the corrected sanitiser never returns "" and fits max_length unless it returns "untitled" |
| Validators.SanitizeBoundedAgrees | src/utils/validators.py:159-162 | the correction agrees with the source except when the extension cannot fit |
| FileWriter.KeepTitleChars | src/tools/file_writer.py:105 | only alphanumerics, space, '-' and '_' are kept |
| FileWriter.SpacesToUnderscores | src/tools/file_writer.py:106 | each space becomes '_'; other characters are kept |
| FileWriter.SafeTitleShape | src/tools/file_writer.py:105-106 | the safe title is at most 50 characters of alphanumerics, '-' and '_' |
| FileWriter.SafeTitleIdempotent | src/tools/file_writer.py:105-106 | sanitising a safe title changes nothing |
| FileWriter.OutputFileNameShape | src/tools/file_writer.py:101-113 | "tailored_resume_" + safe title + "_" + timestamp with a title, "tailored_resume_" + timestamp without, then "." + extension |
| FileWriter.MarkdownNamedMd | src/tools/file_writer.py:112 | "markdown" and "md" give the same file name |
| FileWriter.TextContentShape | src/tools/file_writer.py:124-129 | Markdown gets the metadata header, two line breaks and the content; txt the content alone |
| FileWriter.ComparisonLayout | src/tools/file_writer.py:265-283 | the fixed heading lines, the original under "## Original Resume", then the tailored text under "## Tailored Resume" |
| FileWriter.RenderStripped | src/tools/file_writer.py:184-207 | a blank line is one spacer; any other line is a paragraph, possibly followed by one spacer |
| FileWriter.RenderPdf | src/tools/file_writer.py:180-207 | the loop builds the story of the lines, one line at a time |
| FileWriter.BoldNotShadowed | src/tools/file_writer.py:189-194 | a "## " line is a bold heading, never a "# " heading |
| FileWriter.HeadingLine | src/tools/file_writer.py:189-193 | "# " + text is a heading paragraph of the text, then a spacer |
| FileWriter.BoldHeadingLine | src/tools/file_writer.py:194-198 | "## " + text is a bold body paragraph, then a smaller spacer |
| FileWriter.BulletLine | src/tools/file_writer.py:199-202 | "- " + text is a body paragraph "• " + text |
| FileWriter.PlainLineEscaped | src/tools/file_writer.py:203-207 | a plain paragraph holds no raw '<' or '>' and unescapes to the stripped line |
| FileWriter.LineParagraphs | src/tools/file_writer.py:182-207 | a blank line gives one spacer; any other line exactly one paragraph, first |
| FileWriter.StoryParagraphs | src/tools/file_writer.py:180-207 | the story has one paragraph per non-blank line and between one and two elements per line |
| FileWriter.StoryConcat | src/tools/file_writer.py:181-207 | the story of a concatenation is the concatenation of the stories |
| FileWriter.FileWriterTool.OutputPath | src/tools/file_writer.py:113 | the path ends with the generated file name |
| FileWriter.FileWriterTool.WriteFile | src/tools/file_writer.py:35-88 | an unsupported lower-cased format is a ValueError and nothing is written; otherwise the custom path or the generated one, holding the PDF story or the text content |
| FileWriter.FileWriterTool.WriteComparison | src/tools/file_writer.py:226-252 | the comparison document at the given path, or at "comparison_" + timestamp + ".md" in the output directory |
| FileWriter.WriterAgreesWithValidator | src/tools/file_writer.py:57-59 | on a format with no surrounding whitespace, the writer accepts exactly what the format validator accepts |
| Escaping.EscapeCharwise | src/tools/file_writer.py:205 | the three chained replacements equal escaping character by character |
| Escaping.UnescapeEscape | src/tools/file_writer.py:205 | unescaping &lt;, &gt;, then &amp; restores the line |
| Escaping.EscapeNoAngles | src/tools/file_writer.py:205 | the escaped line holds no '<' and no '>' |

## Left out

- The regular expressions behind e-mail, phone, URL and LinkedIn search are not modelled. Their matches, in text order, are an input (`Contact.Findings`). The selection and post-processing after them are modelled.
- Language-model calls are function parameters (`generate`), as are JSON encoding and decoding and the construction of the job record (`encode`, `decode`).
- `get_all_keywords` belongs to the job-record module, which is not part of this model. `Tailor.IdentifyMatchedKeywords` takes its result as a parameter.
- Tailor.MatchScore: the score is the exact ratio M/N × 100, not Python's `round(…, 1)` of a float.
- Letter case, `isalnum`, `isdigit`, `isspace`, `isupper`, `istitle` and `title` are modelled over ASCII only. The bullet glyphs are the one non-ASCII exception.
- `str(job_analysis.qualifications)` in the certification rule is the items quoted and joined with ", " in brackets. Python's escaping of quotes inside an item is not modelled.
- Clocks are not modelled: the file-name timestamp and the "generated" time are string parameters.
- The filesystem is not modelled: `mkdir`, file writes, existence checks, `validate_file_size` and the file reader. `Validators.ValidateFilePath` takes whether the path exists as a parameter.
- pathlib is modelled only for POSIX paths. Paths are strings, and joining with the output directory is string concatenation with "/". Path normalisation is not modelled.
- reportlab is not modelled: page layout, fonts and the style sheet. Failures while building the PDF (the "Failed to create PDF" ValueError) are left out too. The story is a list of spacer and paragraph elements with a style name.
- `_write_pdf` receives the job title but never reads it. The model does not pass it.
- Logging is not modelled.
- `parse_resume` only assembles the contact dictionary and the sections into a record. `extract_from_file` only reads a file and calls the analysis. Neither is modelled beyond its parts.
- Sections.SegmentIdempotent writes each section back under a header line that names it, such as its original header line. It does not write it back under its own name, because with the parser's detector that would not be idempotent. A "VOLUNTEER" header is named "Volunteer Experience" (src/tools/parser.py:175-176). Read again as a header, "Volunteer Experience" is named "Work Experience", because the EXPERIENCE rule comes first (src/tools/parser.py:161-162; `HeaderExamples.NormalizeVolunteerExperience`).
- FileWriter.FileWriterTool.WriteFile: the result says which path and which document would be written, not the bytes on disk.

## Findings

| source | as written | input that shows it | evidently intended | confidence | as-written member | corrected member |
|---|---|---|---|---|---|---|
| src/tools/parser.py:252-256 | `PHONE_PATTERN` has exactly one capturing group, so `re.findall` returns that group's text, the optional country-code prefix, not the number; the `isinstance(…, tuple)` branch never runs | a resume containing "415-555-0100" gets the phone entry "" | the whole matched number | high, not executed | Contact.ContactDictLosesNumber | Contact.ContactDictIntended |
| src/utils/validators.py:159-162 | when the extension plus its dot is longer than `max_length`, `max_name_length` is negative, so `name[:max_name_length]` drops characters from the end of the name instead of keeping a prefix that fits, and `"." + ext` alone is already longer than `max_length` | `sanitize_filename("a.bcdefgh", max_length=5)` returns ".bcdefgh", 8 characters | the result never exceeds `max_length` | high, not executed | Validators.SanitizeOverlongExample | Validators.SanitizeFilenameBounded |
