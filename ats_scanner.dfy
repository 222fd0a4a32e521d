/**
 * The ATS scanner panel: the serialisation of the structured resume into the
 * text that is sent to the scorer, the guard that keeps an empty job
 * description from being scanned, and the colour and message bands of a score.
 */
module AtsScanner {
  import opened Wrappers
  import opened Text
  import opened Seqs
  import opened Resume
  import AtsScan

  /** A labelled line, written only when the value is non-empty. */
  function OptionalLine(caption: string, value: string): (r: string)
    ensures r == "" <==> value == ""
    ensures value != "" ==> r == caption + value + "\n"
  {
    if value != "" then caption + value + "\n" else ""
  }

  /** Name, contact and location lines, the optional LinkedIn and Website lines, then a blank line. */
  function PersonalBlock(p: PersonalInfo): (r: string)
    ensures r != "" && r[|r| - 1] == '\n'
  {
    (p.firstName + " " + p.lastName + "\n")
    + (p.email + " " + p.phone + "\n")
    + (p.location + "\n")
    + OptionalLine("LinkedIn: ", p.linkedin)
    + OptionalLine("Website: ", p.website)
    + "\n"
  }

  predicate IsCompleteExperience(e: Experience) {
    e.data.company != "" && e.data.position != ""
  }

  predicate IsCompleteEducation(e: Education) {
    e.data.institution != "" && e.data.degree != ""
  }

  predicate IsNamedSkill(s: Skill) {
    s.data.name != ""
  }

  /** "position at company", the description if any, and a blank line; nothing for an incomplete entry. */
  function ExperienceEntry(e: Experience): (r: string)
    ensures r == "" <==> !IsCompleteExperience(e)
  {
    if IsCompleteExperience(e) then
      (e.data.position + " at " + e.data.company + "\n") + OptionalLine("", e.data.description) + "\n"
    else ""
  }

  /** "degree in field from institution", the GPA line if any, and a blank line; nothing for an incomplete entry. */
  function EducationEntry(e: Education): (r: string)
    ensures r == "" <==> !IsCompleteEducation(e)
  {
    if IsCompleteEducation(e) then
      (e.data.degree + " in " + e.data.field + " from " + e.data.institution + "\n")
      + OptionalLine("GPA: ", e.data.gpa) + "\n"
    else ""
  }

  /** "name (Level)"; nothing for a skill without a name. */
  function SkillEntry(s: Skill): (r: string)
    ensures r == "" <==> !IsNamedSkill(s)
  {
    if IsNamedSkill(s) then (s.data.name + " (" + s.data.level.Name() + ")\n") else ""
  }

  /** A section body: the entries' texts, in list order. */
  function Section<T>(xs: seq<T>, entry: T -> string): string {
    if xs == [] then "" else Section(xs[..|xs| - 1], entry) + entry(xs[|xs| - 1])
  }

  function ExperienceBlock(es: seq<Experience>): string { Section(es, ExperienceEntry) }
  function EducationBlock(es: seq<Education>): string { Section(es, EducationEntry) }
  function SkillsBlock(ss: seq<Skill>): string { Section(ss, SkillEntry) }

  lemma SectionStep<T>(xs: seq<T>, i: nat, entry: T -> string)
    requires i < |xs|
    ensures Section(xs[..i + 1], entry) == Section(xs[..i], entry) + entry(xs[i])
  {
    assert xs[..i + 1][..i] == xs[..i];
  }

  /** Entries that write nothing can be dropped from a section without changing its text. */
  lemma {:induction false} SectionSkipsSilentEntries<T(!new)>(xs: seq<T>, entry: T -> string, keep: T -> bool)
    requires forall x :: !keep(x) ==> entry(x) == ""
    ensures Section(Filter(xs, keep), entry) == Section(xs, entry)
  {
    if xs != [] {
      var init, last := xs[..|xs| - 1], xs[|xs| - 1];
      SectionSkipsSilentEntries(init, entry, keep);
      assert xs[..|xs| - 1] == init;
      if keep(last) {
        var f := Filter(init, keep) + [last];
        assert f[..|f| - 1] == Filter(init, keep);
        assert Filter(xs, keep) == f;
        assert Section(f, entry) == Section(Filter(init, keep), entry) + entry(last);
      } else {
        assert Filter(xs, keep) == Filter(init, keep);
      }
      assert Section(xs, entry) == Section(init, entry) + entry(last);
    }
  }

  /**
   * Incomplete experiences, incomplete education entries and unnamed skills
   * contribute nothing: the text is the text of the complete entries alone.
   */
  lemma ResumeTextSkipsIncompleteEntries(p: PersonalInfo, experiences: seq<Experience>, education: seq<Education>, skills: seq<Skill>)
    ensures ResumeText(p, experiences, education, skills)
         == ResumeText(p, Filter(experiences, IsCompleteExperience), Filter(education, IsCompleteEducation),
                       Filter(skills, IsNamedSkill))
  {
    SectionSkipsSilentEntries(experiences, ExperienceEntry, IsCompleteExperience);
    SectionSkipsSilentEntries(education, EducationEntry, IsCompleteEducation);
    SectionSkipsSilentEntries(skills, SkillEntry, IsNamedSkill);
  }

  /** The serialised resume: personal block, then the three sections under their headers. */
  function ResumeText(p: PersonalInfo, experiences: seq<Experience>, education: seq<Education>, skills: seq<Skill>): string {
    PersonalBlock(p)
    + "EXPERIENCE\n" + ExperienceBlock(experiences)
    + "EDUCATION\n" + EducationBlock(education)
    + "SKILLS\n" + SkillsBlock(skills)
  }

  /**
   * `generateResumeText`: appends to `text` line by line, one `forEach` per
   * section.
   */
  method GenerateResumeText(p: PersonalInfo, experiences: seq<Experience>, education: seq<Education>, skills: seq<Skill>)
    returns (text: string)
    ensures text == ResumeText(p, experiences, education, skills)
  {
    text := "";
    text := text + (p.firstName + " " + p.lastName + "\n");
    text := text + (p.email + " " + p.phone + "\n");
    text := text + (p.location + "\n");
    if p.linkedin != "" {
      text := text + ("LinkedIn: " + p.linkedin + "\n");
    }
    if p.website != "" {
      text := text + ("Website: " + p.website + "\n");
    }
    text := text + "\n";
    assert text == PersonalBlock(p);

    text := text + "EXPERIENCE\n";
    text := AppendExperiences(text, experiences);
    ghost var upToEducation := text;
    text := text + "EDUCATION\n";
    text := AppendEducation(text, education);
    ghost var upToSkills := text;
    text := text + "SKILLS\n";
    text := AppendSkills(text, skills);
    assert upToEducation == PersonalBlock(p) + "EXPERIENCE\n" + ExperienceBlock(experiences);
  }

  /** The experience `forEach`: each complete entry's lines are appended in list order. */
  method AppendExperiences(text0: string, experiences: seq<Experience>) returns (text: string)
    ensures text == text0 + ExperienceBlock(experiences)
  {
    text := text0;
    for i := 0 to |experiences|
      invariant text == text0 + ExperienceBlock(experiences[..i])
    {
      var exp := experiences[i];
      ghost var prev := text;
      if exp.data.company != "" && exp.data.position != "" {
        text := text + (exp.data.position + " at " + exp.data.company + "\n");
        if exp.data.description != "" {
          text := text + (exp.data.description + "\n");
        }
        ghost var lines := text;
        text := text + "\n";
        assert text == prev + ExperienceEntry(exp) by {
          assert lines == prev + ((exp.data.position + " at " + exp.data.company + "\n") + OptionalLine("", exp.data.description));
        }
      }
      assert text == prev + ExperienceEntry(exp);
      assert text == text0 + ExperienceBlock(experiences[..i + 1]) by {
        SectionStep(experiences, i, ExperienceEntry);
        assert text == (text0 + ExperienceBlock(experiences[..i])) + ExperienceEntry(exp);
      }
    }
    assert experiences[..|experiences|] == experiences;
  }

  /** The education `forEach`: each complete entry's lines are appended in list order. */
  method AppendEducation(text0: string, education: seq<Education>) returns (text: string)
    ensures text == text0 + EducationBlock(education)
  {
    text := text0;
    for i := 0 to |education|
      invariant text == text0 + EducationBlock(education[..i])
    {
      var edu := education[i];
      ghost var prev := text;
      if edu.data.institution != "" && edu.data.degree != "" {
        text := text + (edu.data.degree + " in " + edu.data.field + " from " + edu.data.institution + "\n");
        if edu.data.gpa != "" {
          text := text + ("GPA: " + edu.data.gpa + "\n");
        }
        ghost var lines := text;
        text := text + "\n";
        assert text == prev + EducationEntry(edu) by {
          assert lines == prev + ((edu.data.degree + " in " + edu.data.field + " from " + edu.data.institution + "\n")
                                  + OptionalLine("GPA: ", edu.data.gpa));
        }
      }
      assert text == prev + EducationEntry(edu);
      assert text == text0 + EducationBlock(education[..i + 1]) by {
        SectionStep(education, i, EducationEntry);
        assert text == (text0 + EducationBlock(education[..i])) + EducationEntry(edu);
      }
    }
    assert education[..|education|] == education;
  }

  /** The skills `forEach`: each named skill's line is appended in list order. */
  method AppendSkills(text0: string, skills: seq<Skill>) returns (text: string)
    ensures text == text0 + SkillsBlock(skills)
  {
    text := text0;
    for i := 0 to |skills|
      invariant text == text0 + SkillsBlock(skills[..i])
    {
      var skill := skills[i];
      ghost var prev := text;
      if skill.data.name != "" {
        text := text + (skill.data.name + " (" + skill.data.level.Name() + ")\n");
      }
      assert text == prev + SkillEntry(skill);
      assert text == text0 + SkillsBlock(skills[..i + 1]) by {
        SectionStep(skills, i, SkillEntry);
        assert text == (text0 + SkillsBlock(skills[..i])) + SkillEntry(skill);
      }
    }
    assert skills[..|skills|] == skills;
  }

  lemma SliceOfConcat(a: string, b: string, c: string)
    ensures (a + b + c)[..|a|] == a
    ensures (a + b + c)[|a|..|a| + |b|] == b
    ensures (a + b + c)[|a| + |b|..] == c
  {
  }

  /**
   * The three headers come after the personal block, in the order
   * EXPERIENCE, EDUCATION, SKILLS, each followed by its section.
   */
  lemma ResumeTextLayout(p: PersonalInfo, experiences: seq<Experience>, education: seq<Education>, skills: seq<Skill>)
    ensures var t := ResumeText(p, experiences, education, skills);
            var i := |PersonalBlock(p)|;
            var j := i + 11 + |ExperienceBlock(experiences)|;
            var k := j + 10 + |EducationBlock(education)|;
            && 0 < i < j < k && k + 7 <= |t|
            && t[..i] == PersonalBlock(p)
            && t[i..i + 11] == "EXPERIENCE\n"
            && t[j..j + 10] == "EDUCATION\n"
            && t[k..k + 7] == "SKILLS\n" && t[k + 7..] == SkillsBlock(skills)
  {
    var pb, eb, db, sb := PersonalBlock(p), ExperienceBlock(experiences), EducationBlock(education), SkillsBlock(skills);
    var t := ResumeText(p, experiences, education, skills);
    var u := pb + "EXPERIENCE\n" + eb;
    var v := u + "EDUCATION\n" + db;
    assert t == v + "SKILLS\n" + sb;
    SliceOfConcat(v, "SKILLS\n", sb);
    assert v[..|u| + 10] == u + "EDUCATION\n";
    SliceOfConcat(u, "EDUCATION\n", db);
    assert u[..|pb| + 11] == pb + "EXPERIENCE\n";
    SliceOfConcat(pb, "EXPERIENCE\n", eb);
  }

  const ExcellentMessage := "Excellent ATS compatibility!"
  const GoodMessage := "Good ATS compatibility, some improvements needed."
  const PoorMessage := "Poor ATS compatibility, significant improvements needed."

  /** `getScoreColor`: green from 80, yellow from 60, red below. */
  function ScoreColor(score: int): (c: string)
    ensures c == "green" <==> score >= 80
    ensures c == "yellow" <==> 60 <= score < 80
    ensures c == "red" <==> score < 60
  {
    if score >= 80 then "green" else if score >= 60 then "yellow" else "red"
  }

  /** `getScoreMessage`: the same three bands as the colour. */
  function ScoreMessage(score: int): (m: string)
    ensures m == ExcellentMessage <==> score >= 80
    ensures m == GoodMessage <==> 60 <= score < 80
    ensures m == PoorMessage <==> score < 60
  {
    assert |ExcellentMessage| == 28 && |GoodMessage| == 49 && |PoorMessage| == 56;
    if score >= 80 then ExcellentMessage else if score >= 60 then GoodMessage else PoorMessage
  }

  /** Colour and message always name the same band, and a higher score never falls to a lower band. */
  lemma ScoreBandsAgree(score: int, higher: int)
    requires score <= higher
    ensures ScoreColor(score) == "green" <==> ScoreMessage(score) == ExcellentMessage
    ensures ScoreColor(score) == "yellow" <==> ScoreMessage(score) == GoodMessage
    ensures ScoreColor(score) == "red" <==> ScoreMessage(score) == PoorMessage
    ensures ScoreColor(score) == "green" ==> ScoreColor(higher) == "green"
    ensures ScoreColor(score) == "yellow" ==> ScoreColor(higher) != "red"
  {
  }

  /** The request body `scanATS` posts. */
  datatype ScanRequest = ScanRequest(resumeText: string, jobDescription: string)

  /**
   * The guard in `scanATS`: no request when the job description is empty once
   * trimmed; otherwise the untrimmed texts are sent.
   */
  function RequestScan(resumeText: string, jobDescription: string): (r: Option<ScanRequest>)
    ensures r.None? <==> forall c :: c in jobDescription ==> IsSpace(c)
    ensures r.Some? ==> r.value.resumeText == resumeText && r.value.jobDescription == jobDescription
  {
    if Trim(jobDescription) == "" then None else Some(ScanRequest(resumeText, jobDescription))
  }

  lemma NormalizeHeader()
    ensures AtsScan.Normalize("EXPERIENCE\n") == "experience" + "\n"
  {
    var n := AtsScan.Normalize("EXPERIENCE\n");
    forall i | 0 <= i < 11 ensures n[i] == ("experience" + "\n")[i] {
      assert n[i] == AtsScan.ScrubChar(LowerChar("EXPERIENCE\n"[i]));
    }
  }

  /** The text splits at the EXPERIENCE header into the personal block, the header and the rest. */
  lemma ResumeTextAtExperienceHeader(p: PersonalInfo, experiences: seq<Experience>, education: seq<Education>, skills: seq<Skill>)
    ensures ResumeText(p, experiences, education, skills)
         == PersonalBlock(p) + ("EXPERIENCE\n" + (ExperienceBlock(experiences) + "EDUCATION\n" + EducationBlock(education)
                                                   + "SKILLS\n" + SkillsBlock(skills)))
  {
    var q := PersonalBlock(p) + "EXPERIENCE\n";
    var eb, db, sb := ExperienceBlock(experiences), EducationBlock(education), SkillsBlock(skills);
    SeqAssoc(q, eb, "EDUCATION\n");
    SeqAssoc(q, eb + "EDUCATION\n", db);
    SeqAssoc(q, eb + "EDUCATION\n" + db, "SKILLS\n");
    SeqAssoc(q, eb + "EDUCATION\n" + db + "SKILLS\n", sb);
    SeqAssoc(PersonalBlock(p), "EXPERIENCE\n", eb + "EDUCATION\n" + db + "SKILLS\n" + sb);
  }

  /** A text ending in a line break, then the EXPERIENCE header: "experience" is one of the pieces. */
  lemma ExperiencePieceAfterLineBreak(pb: string, rest: string)
    requires pb != [] && pb[|pb| - 1] == '\n'
    ensures "experience" in Split(AtsScan.Normalize(pb + ("EXPERIENCE\n" + rest)))
  {
    AtsScan.NormalizeConcat(pb, "EXPERIENCE\n" + rest);
    AtsScan.NormalizeConcat("EXPERIENCE\n", rest);
    NormalizeHeader();
    var a := AtsScan.Normalize(pb);
    var tail := "experience" + ("\n" + AtsScan.Normalize(rest));
    SeqAssoc("experience", "\n", AtsScan.Normalize(rest));
    assert AtsScan.Normalize(pb + ("EXPERIENCE\n" + rest)) == a + tail;
    assert a[|a| - 1] == AtsScan.ScrubChar(LowerChar(pb[|pb| - 1]));
    assert tail[0] == 'e';
    SplitKeepsPieces(a, tail);
    SplitFirstWord("experience", "\n" + AtsScan.Normalize(rest));
  }

  /** The EXPERIENCE header gives every serialised resume the keyword "experience". */
  lemma ResumeTextHasExperienceKeyword(p: PersonalInfo, experiences: seq<Experience>, education: seq<Education>, skills: seq<Skill>)
    ensures "experience" in AtsScan.ExtractKeywords(ResumeText(p, experiences, education, skills))
  {
    var t := ResumeText(p, experiences, education, skills);
    var rest := ExperienceBlock(experiences) + "EDUCATION\n" + EducationBlock(education) + "SKILLS\n" + SkillsBlock(skills);
    ResumeTextAtExperienceHeader(p, experiences, education, skills);
    ExperiencePieceAfterLineBreak(PersonalBlock(p), rest);
    AtsScan.LongTokensAreCandidates("experience");
    AtsScan.KeywordsAreCleanTokens(t);
  }

  /**
   * A scan the panel requests is accepted and, since the resume side always
   * has a keyword, never gets the null score of an empty keyword union.
   */
  lemma PanelScanAlwaysScores(p: PersonalInfo, experiences: seq<Experience>, education: seq<Education>, skills: seq<Skill>,
                              jobDescription: string)
    requires RequestScan(ResumeText(p, experiences, education, skills), jobDescription).Some?
    ensures var req := RequestScan(ResumeText(p, experiences, education, skills), jobDescription).value;
            var response := AtsScan.Scan(Some(req.resumeText), Some(req.jobDescription));
            && response.Success?
            && response.result.score.Some?
            && 0 <= response.result.score.value <= 100
  {
    var t := ResumeText(p, experiences, education, skills);
    ResumeTextHasExperienceKeyword(p, experiences, education, skills);
    assert t != "";
    assert jobDescription != "";
    AtsScan.ScanScore(t, jobDescription);
  }
}
