# resume-builder-ats: a Dafny model of the ATS scorer and the resume editing state

This project models the logic at the centre of the resume builder:

- **The ATS keyword scorer** (`src/app/api/ats-scan/route.ts`), modules `AtsScan` and `Text`:
  - keyword extraction: lowercase, scrub punctuation, split on white space, drop short tokens and stop words, keep first occurrences;
  - Jaccard similarity, with the score rounded the way `Math.round` does it;
  - the matched/missing split of the job-description keywords;
  - the suggestion list;
  - the 400 validation path.
- **The scanner panel** (`src/components/ATSScanner.tsx`), module `AtsScanner`:
  - the resume text the panel sends to the scorer, built by a loop that appends line by line;
  - the guard that refuses a blank job description;
  - the colour and message bands of a score.
- **The builder page's section editing** (`src/app/resume-builder/page.tsx`), modules `ResumeBuilder` and `IdLists`:
  - a class holding the experience, education and skill lists, the edit/add form state and the set of sections with unsaved changes;
  - delete-by-id, save-as-edit-or-append, the form guards and the "current job" checkbox;
  - the grouping of skills by level.
- **The notification list** (`src/hooks/useNotification.ts`), module `Notifications`: a class with add, remove, clear and the scheduled automatic removal.

Shared pieces live in their own modules:

- `Wrappers`: `Option`.
- `Seqs`:
  - `Distinct` and `Subsequence`;
  - `IndexOf`;
  - `KeepFirst`, i.e. `filter((x, i, a) => a.indexOf(x) === i)`, which is also the iteration order of a `Set`;
  - `Filter`, i.e. `filter(test)`;
  - `Join`, `SplitAtCommaSpace` (a separate `split(", ")` used to read a joined list back) and `Take`.
- `Resume`: the resume records.

How JavaScript behaviour is modelled:

- **White space.** `\s`, which is also the set of characters `trim()` removes, is the exact ECMAScript white-space-and-line-terminator set.
- **Splitting.** `split(/\s+/)` keeps the empty first and last pieces that a leading or trailing run of spaces produces.
- **Number and NaN.** A JavaScript number that may be `NaN` is the datatype `Number = NaN | Ratio(part, whole)`.
- **Rounding.** `Math.round(100 * part / whole)` is computed exactly as the quotient `(200 * part + whole) / (2 * whole)`.
- **Score.** The score is an `Option<int>`. `None` is the `null` that `JSON` writes for `NaN`.

An empty keyword union:

- When neither text has a keyword, the code divides 0 by 0 (`route.ts:34`). The score is `NaN`, which JSON sends as `null`, not 0.
- `AtsScan.ScanScore` states exactly when the score is null, and `AtsScan.StopWordsOnlyGiveNullScore` exhibits such a scan.
- `AtsScanner.PanelScanAlwaysScores` shows that this never happens for a scan started from the panel. The serialised resume always contains the keyword "experience", from its own `EXPERIENCE` header.

## Model

| member | source | states |
|---|---|---|
| Seqs.IndexOf | src/app/api/ats-scan/route.ts:24 | `indexOf`: -1 exactly when absent; otherwise an index holding the value with no earlier occurrence |
| Seqs.KeepFirst | src/app/api/ats-scan/route.ts:24 | de-duplication: no repeats, the same values, each at the position of its first occurrence |
| Seqs.KeepFirstOfDistinct | src/app/api/ats-scan/route.ts:75-78 | a list without duplicates is unchanged by de-duplication (so `[...new Set(keywords)]` is the keyword list itself) |
| Seqs.KeepFirstIdempotent | src/app/api/ats-scan/route.ts:24 | de-duplicating twice equals de-duplicating once |
| Seqs.FirstOccurrencesOfDistinct | src/app/api/ats-scan/route.ts:24 | on a list without duplicates, every element is kept from any start index |
| Seqs.IndexOfSnoc | src/app/resume-builder/page.tsx:1262-1266 | appending a value leaves the first-occurrence index of every earlier value unchanged; a new value's index is the old length |
| Seqs.Take | src/app/api/ats-scan/route.ts:41 | `slice(0, 5)`: a prefix of length min(5, n) |
| Seqs.Join | src/app/api/ats-scan/route.ts:41 | `join(sep)`: empty for no items; otherwise it starts with the first item and is as long as all items plus one separator between each pair |
| Seqs.JoinSnoc | src/app/api/ats-scan/route.ts:41 | joining one more item appends the separator and that item |
| Seqs.SplitJoinCommaSpace | src/app/api/ats-scan/route.ts:41 | splitting at ", " gives back the joined items when none of them holds a comma |
| Text.LowerChar | src/app/api/ats-scan/route.ts:20 | an upper-case ASCII letter becomes the letter 32 code points above it (its lower-case form); every other character is unchanged |
| Text.Lower | src/app/api/ats-scan/route.ts:20 | `toLowerCase` on the whole text: same length, and every position holds `LowerChar` of the input's character |
| Text.LowerConcat | src/app/api/ats-scan/route.ts:20 | lower-casing distributes over concatenation |
| Text.Split | src/app/api/ats-scan/route.ts:22 | `split(/\s+/)` yields at least one piece |
| Text.SplitOneWord | src/app/api/ats-scan/route.ts:22 | a text without white space is its own single piece |
| Text.SplitCons | src/app/api/ats-scan/route.ts:22 | a word, a white-space run and a rest not starting with white space split into the word followed by the pieces of the rest; with SplitOneWord this fixes every split |
| Text.SplitPieces | src/app/api/ats-scan/route.ts:22 | every character of every piece comes from the text and is not white space |
| Text.SplitFirstWord | src/app/api/ats-scan/route.ts:22 | a word followed by white space is the first piece |
| Text.SplitTwoWords | src/app/api/ats-scan/route.ts:22 | two space-free words joined by one space split into exactly those two words |
| Text.SplitKeepsPieces | src/app/api/ats-scan/route.ts:22 | prefixing text that ends in white space keeps every piece of the rest |
| Text.Trim | src/components/ATSScanner.tsx:128 | `trim()` is empty exactly when the text is all white space; otherwise neither end is white space |
| AtsScan.ScrubChar | src/app/api/ats-scan/route.ts:21 | `replace(/[^\w\s]/g, ' ')` per character: word and space characters are kept, every other character becomes `' '` |
| AtsScan.Scrub | src/app/api/ats-scan/route.ts:21 | the global replace: same length, and every position holds `ScrubChar` of the input's character, so each other character becomes exactly one space |
| AtsScan.ScrubConcat | src/app/api/ats-scan/route.ts:21 | scrubbing distributes over concatenation |
| AtsScan.Normalize | src/app/api/ats-scan/route.ts:20-21 | lower-cased and scrubbed text, position by position; only keyword characters or white space remain |
| AtsScan.NormalizeConcat | src/app/api/ats-scan/route.ts:20-21 | normalisation distributes over concatenation |
| AtsScan.LongTokensAreCandidates | src/app/api/ats-scan/route.ts:12-23 | no stop word has more than six characters, so every longer token passes the filter |
| AtsScan.KeepCandidates | src/app/api/ats-scan/route.ts:23 | the filter keeps exactly the tokens longer than two characters that are not stop words: a subsequence with every kept token's full count and none of the others |
| AtsScan.Candidates | src/app/api/ats-scan/route.ts:19-23 | the token stream before de-duplication: exactly the pieces of the lower-cased, scrubbed, white-space-split text that are longer than two characters and not stop words, in text order (a subsequence of the pieces) |
| AtsScan.ExtractKeywords | src/app/api/ats-scan/route.ts:10-25 | no duplicates; exactly the candidate tokens |
| AtsScan.KeywordsAreCleanTokens | src/app/api/ats-scan/route.ts:12-23 | every keyword is longer than two characters, is not a stop word, and is made of `a-z0-9_` only; every candidate piece becomes a keyword |
| AtsScan.KeywordsInFirstOccurrenceOrder | src/app/api/ats-scan/route.ts:24 | keywords are ordered by their first occurrence among the candidates |
| AtsScan.KeywordSet | src/app/api/ats-scan/route.ts:28-29 | `new Set(keywords)` has exactly the keywords as members |
| AtsScan.Similarity | src/app/api/ats-scan/route.ts:27-35 | NaN exactly when both keyword lists are empty; otherwise the size of the keyword sets' intersection over the size of their (non-empty) union, at most 1 |
| AtsScan.SimilarityCountsScanLists | src/app/api/ats-scan/route.ts:27-35 | whenever the similarity is a number (some keyword on either side) and the job keywords have no duplicates, the shared part is the number of matched keywords and the union is matched plus missing plus the resume keywords the job does not name |
| AtsScan.SelectionCount | src/app/api/ats-scan/route.ts:78-79 | on a duplicate-free list the matched and missing selections have one element per matched and missing value |
| AtsScan.SimilaritySymmetric | src/app/api/ats-scan/route.ts:27-35 | the similarity does not depend on argument order |
| AtsScan.SimilarityOfIdentical | src/app/api/ats-scan/route.ts:27-35 | identical non-empty keyword lists have intersection equal to union |
| AtsScan.QuotBounds | src/app/api/ats-scan/route.ts:82 | the quotient `q` satisfies `q*b <= a < (q+1)*b` |
| AtsScan.RoundScore | src/app/api/ats-scan/route.ts:82 | null exactly for NaN; 0..100 for a ratio at most 1; 100 for a full match; 0 for no overlap |
| AtsScan.RoundedPercentBounds | src/app/api/ats-scan/route.ts:82 | the rounded percentage of `p/w` is at most 100 when `p <= w`, exactly 100 when `p = w`, 0 when `p = 0` |
| AtsScan.RoundScoreIsNearest | src/app/api/ats-scan/route.ts:82 | the score `k` is the nearest integer to `100*part/whole`, halves rounded up |
| AtsScan.SelectByPresence | src/app/api/ats-scan/route.ts:78-79 | the keywords whose presence in the resume set is as asked, in job order, without duplicates |
| AtsScan.SelectionSizes | src/app/api/ats-scan/route.ts:78-79 | the matched and missing lists together are as long as the job keyword list |
| AtsScan.SelectAllPresent | src/app/api/ats-scan/route.ts:78-79 | when every keyword is present, all are matched and none is missing |
| AtsScan.AddMissingMessage | src/app/api/ats-scan/route.ts:40-42 | the message starts with the fixed prefix; when the missing keywords hold no comma, the rest splits at ", " into exactly the first five of them |
| AtsScan.KeywordsHaveNoComma | src/app/api/ats-scan/route.ts:21 | no keyword contains a comma |
| AtsScan.ScanListsMissingKeywords | src/app/api/ats-scan/route.ts:39-41 | when a scan has missing keywords, its first suggestion is the prefix followed by the first five of them, recoverable by splitting at ", " |
| AtsScan.Suggestions | src/app/api/ats-scan/route.ts:37-57 | between three and six messages |
| AtsScan.SuggestionsShape | src/app/api/ats-scan/route.ts:37-57 | exact length; the last three are the fixed tips in order; the missing-keywords message comes first exactly when something is missing; the "include more" tip appears exactly when fewer than five matched; the "focus" tip appears exactly when more are missing than matched |
| AtsScan.SuggestionsOrdered | src/app/api/ats-scan/route.ts:37-57 | the messages appear in the fixed order of the pushes |
| AtsScan.DistinctMessages | src/app/api/ats-scan/route.ts:41-54 | the six possible messages are pairwise different |
| AtsScan.TipMarks | src/app/api/ats-scan/route.ts:45-54 | lengths and characters that tell the five constant tips apart |
| AtsScan.SuggestionsInOrder | src/app/api/ats-scan/route.ts:37-57 | any choice of the optional messages followed by the fixed tips is in push order |
| AtsScan.GenerateSuggestions | src/app/api/ats-scan/route.ts:37-57 | the push-by-push method builds exactly `Suggestions` |
| AtsScan.Scan | src/app/api/ats-scan/route.ts:63-68 | a missing or empty text or job description is refused with status 400 and the required-fields error, and only then |
| AtsScan.Present | src/app/api/ats-scan/route.ts:63 | JavaScript truthiness of a request field; it has no contract of its own, and `Scan`'s ensures states that a 400 is returned exactly when one of the two fields is not `Present` |
| AtsScan.AnalyzePartitionsJobKeywords | src/app/api/ats-scan/route.ts:75-79 | matched and missing are disjoint, together are the job keywords, keep job order, have no duplicates; matched means present in both |
| AtsScan.ScanPartitionsJobKeywords | src/app/api/ats-scan/route.ts:71-79 | the same partition for a whole scan of two texts |
| AtsScan.ScanScore | src/app/api/ats-scan/route.ts:82 | the score is null exactly when neither text has a keyword; otherwise it lies in 0..100 |
| AtsScan.AnalyzeIdentical | src/app/api/ats-scan/route.ts:75-82 | identical keyword lists score 100 with nothing missing and everything matched |
| AtsScan.Analyze | src/app/api/ats-scan/route.ts:75-85 | the result built from the two keyword lists; it has no contract of its own, and its result is stated by `AnalyzePartitionsJobKeywords` (the matched/missing split in `Set` order), `SimilarityCountsScanLists` with `RoundScoreIsNearest` (the rounded score), `SuggestionsShape` (the suggestions) and `AnalyzeIdentical` |
| AtsScan.ScanOfIdenticalTexts | src/app/api/ats-scan/route.ts:71-82 | a text with a keyword scanned against itself scores 100 with nothing missing |
| AtsScan.NoKeywordsInTwoShortWords | src/app/api/ats-scan/route.ts:19-24 | a text that normalises to two non-candidate words has no keyword |
| AtsScan.NullScoreWithoutKeywords | src/app/api/ats-scan/route.ts:63-82 | two non-empty texts without keywords scan to a null score |
| AtsScan.StopWordsOnlyGiveNullScore | src/app/api/ats-scan/route.ts:82 | scanning "The and" against "it is" gives a null score, not 0 |
| AtsScanner.OptionalLine | src/components/ATSScanner.tsx:89-90 | a LinkedIn, Website, description or GPA line is written exactly when the field is non-empty |
| AtsScanner.PersonalBlock | src/components/ATSScanner.tsx:86-92 | the personal block is non-empty and ends with a line break |
| AtsScanner.ExperienceEntry | src/components/ATSScanner.tsx:95-101 | an experience writes text exactly when both company and position are non-empty |
| AtsScanner.EducationEntry | src/components/ATSScanner.tsx:105-111 | an education entry writes text exactly when both institution and degree are non-empty |
| AtsScanner.SkillEntry | src/components/ATSScanner.tsx:115-119 | a skill writes a line exactly when its name is non-empty |
| AtsScanner.SectionStep | src/components/ATSScanner.tsx:95-119 | one more entry appends exactly that entry's text to its section |
| AtsScanner.Section | src/components/ATSScanner.tsx:95-119 | one `forEach` over a section's entries; it has no contract of its own, and `SectionStep` (one more entry appends its text) and `SectionSkipsSilentEntries` state its result |
| Seqs.Filter | src/components/ATSScanner.tsx:95-119 | the entries that pass the test: a subsequence keeping every such entry's full count and none of the others |
| AtsScanner.SectionSkipsSilentEntries | src/components/ATSScanner.tsx:95-119 | dropping entries that write nothing leaves a section's text unchanged |
| AtsScanner.ResumeTextSkipsIncompleteEntries | src/components/ATSScanner.tsx:82-122 | the text equals the text of the complete experiences, complete education entries and named skills alone |
| AtsScanner.GenerateResumeText | src/components/ATSScanner.tsx:82-122 | the appending method produces exactly `ResumeText` |
| AtsScanner.ResumeText | src/components/ATSScanner.tsx:82-122 | the string `generateResumeText` builds; it has no contract of its own, and its result is stated by `GenerateResumeText` (the appending loop builds it), `ResumeTextLayout`, `ResumeTextSkipsIncompleteEntries` and `ResumeTextHasExperienceKeyword` |
| AtsScanner.AppendExperiences | src/components/ATSScanner.tsx:94-101 | the experience loop appends exactly the experience section |
| AtsScanner.AppendEducation | src/components/ATSScanner.tsx:104-111 | the education loop appends exactly the education section |
| AtsScanner.AppendSkills | src/components/ATSScanner.tsx:114-119 | the skills loop appends exactly the skills section |
| AtsScanner.SliceOfConcat | src/components/ATSScanner.tsx:86-119 | proof helper for `ResumeTextLayout`: the three parts of a concatenation are recovered by slicing |
| AtsScanner.ResumeTextLayout | src/components/ATSScanner.tsx:86-119 | after the personal block come the headers EXPERIENCE, EDUCATION and SKILLS in that order, with the skills section last |
| AtsScanner.ScoreColor | src/components/ATSScanner.tsx:152-156 | green exactly from 80, yellow exactly for 60..79, red exactly below 60 |
| AtsScanner.ScoreMessage | src/components/ATSScanner.tsx:158-162 | the excellent, good and poor messages on exactly the same bands |
| AtsScanner.ScoreBandsAgree | src/components/ATSScanner.tsx:152-162 | colour and message always name the same band; a higher score never lands in a lower band |
| AtsScanner.RequestScan | src/components/ATSScanner.tsx:127-141 | no request exactly when the job description is all white space; otherwise both texts are sent untrimmed |
| AtsScanner.NormalizeHeader | src/components/ATSScanner.tsx:94 | the EXPERIENCE header normalises to the token "experience" and a line break |
| AtsScanner.ResumeTextAtExperienceHeader | src/components/ATSScanner.tsx:86-119 | the text is the personal block, then the EXPERIENCE header, then the rest |
| AtsScanner.ExperiencePieceAfterLineBreak | src/components/ATSScanner.tsx:94 | after text ending in a line break, the EXPERIENCE header splits off the piece "experience" |
| AtsScanner.ResumeTextHasExperienceKeyword | src/components/ATSScanner.tsx:94 | "experience" is always among the keywords of the serialised resume |
| AtsScanner.PanelScanAlwaysScores | src/components/ATSScanner.tsx:127-141 | a scan the panel requests is accepted and gets a score in 0..100, never null |
| IdLists.Ids | src/app/resume-builder/page.tsx:739 | the ids of the records, position by position |
| IdLists.RemoveId | src/app/resume-builder/page.tsx:738-741 | `filter(x => x.id !== id)`: exactly the records with other ids, in original order |
| IdLists.RemoveAbsentId | src/hooks/useNotification.ts:22-24 | removing an id nobody carries changes nothing, e.g. a timer that fires after a manual removal |
| IdLists.RemoveIdConcat | src/app/resume-builder/page.tsx:738-741 | removal works piecewise on a concatenation |
| IdLists.AppendThenRemove | src/app/resume-builder/page.tsx:751-758 | appending under a fresh id and then deleting that id restores the list |
| IdLists.RemoveIdKeepsUnique | src/app/resume-builder/page.tsx:738-741 | deletion never creates a shared id |
| IdLists.AppendKeepsUnique | src/app/resume-builder/page.tsx:751-758 | appending under a fresh id keeps ids unique |
| IdLists.ReplaceId | src/app/resume-builder/page.tsx:744-750 | `map` over ids: a record with the id becomes the replacement, every other stays |
| IdLists.ReplaceIdKeepsIds | src/app/resume-builder/page.tsx:744-750 | a replacement under the same id leaves the id list, and its uniqueness, unchanged |
| IdLists.ReplaceIdIsPointUpdate | src/app/resume-builder/page.tsx:744-750 | with unique ids, saving an edit changes only the edited position |
| ResumeBuilder.SetCurrent | src/app/resume-builder/page.tsx:165 | ticking "current" clears the end date; unticking keeps the form's end date; nothing else changes |
| ResumeBuilder.TickThenUntickClearsEndDate | src/app/resume-builder/page.tsx:165 | ticking and then unticking leaves the end date empty: the cleared date does not come back |
| ResumeBuilder.NamesAt | src/app/resume-builder/page.tsx:1262-1266 | a group holds only names of skills at that level, and is a subsequence of the skill names |
| ResumeBuilder.NamesAtIsFilteredNames | src/app/resume-builder/page.tsx:1262-1266 | a level's group is exactly the names of the skills at that level, in skill order |
| ResumeBuilder.LevelsOf | src/app/resume-builder/page.tsx:1262-1266 | the skills' levels, position by position |
| ResumeBuilder.GroupSizesSum | src/app/resume-builder/page.tsx:1262-1266 | the four group sizes add up to the number of skills |
| ResumeBuilder.NameInOwnGroup | src/app/resume-builder/page.tsx:1262-1266 | every skill's name is in its own level's group |
| ResumeBuilder.NoNamesAtAbsentLevel | src/app/resume-builder/page.tsx:1263 | a level no skill has yet has an empty group |
| ResumeBuilder.LevelsPrefixStep | src/app/resume-builder/page.tsx:1262-1266 | one more skill appends its level to the level list |
| ResumeBuilder.NamesPrefixStep | src/app/resume-builder/page.tsx:1262-1266 | one more skill extends its own group by its name and leaves the other groups alone |
| ResumeBuilder.FirstAppearanceStep | src/app/resume-builder/page.tsx:1263 | keys in first-appearance order stay so when a value is seen; a new value goes last |
| ResumeBuilder.PushName | src/app/resume-builder/page.tsx:1263-1264 | one reduce step: the key set gains the skill's level, that level's group (created empty when new) gets the name appended, and every other group is unchanged |
| ResumeBuilder.GroupStep | src/app/resume-builder/page.tsx:1262-1266 | one step of the reduce keeps the grouping exact |
| ResumeBuilder.GroupSkillsByLevel | src/app/resume-builder/page.tsx:1262-1266 | a group for exactly the levels present, holding exactly the names of that level's skills in skill order; keys once each, in first-appearance order |
| ResumeBuilder.ResumeBuilder.constructor | src/app/resume-builder/page.tsx:454 | empty lists and no unsaved section; forms closed |
| ResumeBuilder.ResumeBuilder.MarkSectionAsChanged | src/app/resume-builder/page.tsx:563-565 | the section joins the unsaved set; nothing else changes |
| ResumeBuilder.ResumeBuilder.MarkSectionAsSaved | src/app/resume-builder/page.tsx:567-573 | only that section leaves the unsaved set |
| ResumeBuilder.ResumeBuilder.AddExperience | src/app/resume-builder/page.tsx:727-730 | opens the form with nothing being edited |
| ResumeBuilder.ResumeBuilder.EditExperience | src/app/resume-builder/page.tsx:733-736 | opens the form on the given entry |
| ResumeBuilder.ResumeBuilder.CancelExperienceForm | src/app/resume-builder/page.tsx:765-768 | closes the form; the list and the unsaved set are untouched |
| ResumeBuilder.ResumeBuilder.DeleteExperience | src/app/resume-builder/page.tsx:738-741 | the list loses exactly the entries with that id, order kept; "experience" is marked changed; ids stay unique |
| ResumeBuilder.ResumeBuilder.SaveExperience | src/app/resume-builder/page.tsx:743-763 | while editing, the entry with the edited id takes the data and keeps its id; otherwise one entry with the new id is appended; the form closes; "experience" is marked changed; ids stay unique given a fresh id |
| ResumeBuilder.ResumeBuilder.SubmitExperienceForm | src/app/resume-builder/page.tsx:78-83 | without company and position nothing changes; otherwise the save happens, the form closes with nothing left in edit, and unique ids stay unique when a new entry gets a fresh id |
| ResumeBuilder.ResumeBuilder.AddEducation | src/app/resume-builder/page.tsx:771-774 | opens the form with nothing being edited |
| ResumeBuilder.ResumeBuilder.EditEducation | src/app/resume-builder/page.tsx:776-779 | opens the form on the given entry |
| ResumeBuilder.ResumeBuilder.CancelEducationForm | src/app/resume-builder/page.tsx:808-811 | closes the form; the list and the unsaved set are untouched |
| ResumeBuilder.ResumeBuilder.DeleteEducation | src/app/resume-builder/page.tsx:781-784 | the list loses exactly the entries with that id, order kept; "education" is marked changed |
| ResumeBuilder.ResumeBuilder.SaveEducation | src/app/resume-builder/page.tsx:786-806 | edit keeps the id and replaces the data; add appends one entry with the new id; "education" is marked changed |
| ResumeBuilder.ResumeBuilder.SubmitEducationForm | src/app/resume-builder/page.tsx:222-227 | without institution and degree nothing changes; otherwise the save happens, the form closes with nothing left in edit, and unique ids stay unique when a new entry gets a fresh id |
| ResumeBuilder.ResumeBuilder.AddSkill | src/app/resume-builder/page.tsx:814-817 | opens the form with nothing being edited |
| ResumeBuilder.ResumeBuilder.EditSkill | src/app/resume-builder/page.tsx:819-822 | opens the form on the given skill |
| ResumeBuilder.ResumeBuilder.CancelSkillForm | src/app/resume-builder/page.tsx:851-854 | closes the form; the list and the unsaved set are untouched |
| ResumeBuilder.ResumeBuilder.DeleteSkill | src/app/resume-builder/page.tsx:824-827 | the list loses exactly the skills with that id, order kept; "skills" is marked changed |
| ResumeBuilder.ResumeBuilder.SaveSkill | src/app/resume-builder/page.tsx:829-849 | edit keeps the id and replaces the data; add appends one skill with the new id; "skills" is marked changed |
| ResumeBuilder.ResumeBuilder.SubmitSkillForm | src/app/resume-builder/page.tsx:365-370 | without a name nothing changes; otherwise the save happens, the form closes with nothing left in edit, and unique ids stay unique when a new entry gets a fresh id |
| Notifications.WithId | src/hooks/useNotification.ts:16 | the new notification carries the given fields and the new id |
| Notifications.DismissDelay | src/hooks/useNotification.ts:21 | the given duration when present and non-zero, otherwise 4000; never 0 |
| Notifications.NotificationList.constructor | src/hooks/useNotification.ts:12 | the list starts empty with no timer pending |
| Notifications.NotificationList.AddNotification | src/hooks/useNotification.ts:14-27 | appends one notification with the new id, earlier ones unchanged; schedules its removal after `DismissDelay`; returns the id |
| Notifications.NotificationList.RemoveNotification | src/hooks/useNotification.ts:29-31 | drops exactly the notifications with that id, order kept |
| Notifications.NotificationList.ClearAll | src/hooks/useNotification.ts:33-35 | the list becomes empty; pending timers stay |
| Notifications.NotificationList.FireTimer | src/hooks/useNotification.ts:22-24 | a firing timer leaves the pending set and has exactly the effect of `removeNotification` with its id |

## Left out

- The HTTP and JSON plumbing of the scan endpoint is left out: request parsing, `NextResponse`, the 500 path when parsing throws, and the `fetch` in the panel. A request field is an `Option<string>`, where `None` stands for an absent field; fields of other JSON types are not modelled.
- AtsScan.RoundScore: rounding is computed on exact fractions. JavaScript computes `(i/u)*100` in floating point, which can land just below a half (29/200 gives 14.499…) and then round down. Agreement in those cases is not claimed.
- Text.LowerChar: only ASCII `A`-`Z` are lower-cased. Unicode case mapping is not modelled. `\w` and `\s` are modelled exactly.
- Randomness and time: notification ids (`Math.random`) and builder ids (`Date.now()`) are parameters. Whether they are fresh is an assumption of the uniqueness clauses, not a guarantee.
- Timers: `setTimeout` is a pending entry that `FireTimer` runs when called. The delay is recorded but real time is not modelled.
- Optional text fields (`linkedin`, `website`, `gpa`, `description`) use "" for absent. The source only tests them for truthiness, where the two behave alike.
- `ExperienceData.current`: a `false` checkbox and an absent one are both `false`.
- Notification durations are integers. A `NaN` duration, which `||` would also replace with 4000, is not modelled.
- The builder's persistence is not part of this model: localStorage, the database calls, `confirm` dialogs and authentication. The same goes for the AI suggestion calls, the PDF export that uses `skillsByLevel`, and all rendering.
- React's batching of state updates is not modelled. The model applies each handler to the current state. Only `markSectionAsChanged` and `markSectionAsSaved` use `prev =>` updaters. The list handlers read the list as it was when the page last rendered (`experiences.filter`, `experiences.map`, `[...experiences, x]`). The model matches the page when each handler runs in its own render. Two list handlers in one render would lose the first list update, and the model does not capture that.
