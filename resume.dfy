/**
 * The resume records shared by the builder page and the ATS scanner. Optional
 * text fields (`linkedin`, `website`, `gpa`) are strings where "" stands for
 * absent: the source only reads them under a truthiness test, for which an
 * absent field and an empty one behave the same.
 */
module Resume {

  datatype PersonalInfo = PersonalInfo(
    firstName: string,
    lastName: string,
    email: string,
    phone: string,
    location: string,
    linkedin: string,
    website: string)

  /** What the experience form edits: an experience without its id. */
  datatype ExperienceData = ExperienceData(
    company: string,
    position: string,
    startDate: string,
    endDate: string,
    current: bool,
    description: string)

  datatype Experience = Experience(id: string, data: ExperienceData)

  /** What the education form edits: an education entry without its id. */
  datatype EducationData = EducationData(
    institution: string,
    degree: string,
    field: string,
    gpa: string,
    startDate: string,
    endDate: string)

  datatype Education = Education(id: string, data: EducationData)

  datatype Level = Beginner | Intermediate | Advanced | Expert {
    /** The level as the UI and the serialised text spell it. */
    function Name(): string {
      match this
      case Beginner => "Beginner"
      case Intermediate => "Intermediate"
      case Advanced => "Advanced"
      case Expert => "Expert"
    }
  }

  /** What the skill form edits: a skill without its id. */
  datatype SkillData = SkillData(name: string, level: Level)

  datatype Skill = Skill(id: string, data: SkillData)

  function ExperienceId(e: Experience): string { e.id }
  function EducationId(e: Education): string { e.id }
  function SkillId(s: Skill): string { s.id }
}
