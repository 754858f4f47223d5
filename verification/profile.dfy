/** The record shapes of the portfolio's static data (types.ts, and the
    personal-information object of constants.tsx). Optional fields are
    `Option`s; an absent field and `undefined` are the same `None`. */
module Profile {
  import opened Options

  datatype Project = Project(
    title: string,
    description: string,
    technologies: seq<string>,
    link: Option<string>,
    isWorking: Option<bool>,
    imageUrl: Option<string>)

  datatype Experience = Experience(
    role: string,
    company: string,
    period: string,
    location: string,
    points: seq<string>,
    offerLetter: Option<string>)

  datatype Education = Education(
    degree: string,
    school: string,
    period: string,
    grade: Option<string>)

  datatype SkillCategory = SkillCategory(name: string, skills: seq<string>)

  /** The fields of the personal-information record that the assistant's
      instruction and the contact section read. */
  datatype PersonalInfo = PersonalInfo(
    name: string,
    title: string,
    phone: string,
    summary: string,
    hobbies: seq<string>)

  /** Everything the system instruction is built from. */
  datatype Portfolio = Portfolio(
    info: PersonalInfo,
    skills: seq<SkillCategory>,
    experiences: seq<Experience>,
    projects: seq<Project>,
    educations: seq<Education>)
}
