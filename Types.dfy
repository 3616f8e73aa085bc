/**
 * The records and enumerations of `src/types.ts` that the application's
 * logic reads or writes. Enumerations are closed datatypes; optional
 * (`?:`) fields are `Option`s; JavaScript numbers that only ever hold whole
 * values (ids, points, hours, counts) are `int`, the others (`rating`,
 * `lat`, `lng`) are `real`.
 */
module Types {

  datatype Option<T> = None | Some(value: T)

  /** Eight categories. */
  datatype OpportunityCategory =
    | Tech | Design | Finance | Marketing | Environmental | Social | Health | Education

  /** Three work styles. */
  datatype WorkStyle = Onsite | Remote | Hybrid

  datatype AcademicQualification = HighSchool | Diploma | Bachelor | Master | Phd | Student

  /** The string value of each qualification. */
  function QualificationValue(a: AcademicQualification): string {
    match a
    case HighSchool => "ثانوية عامة"
    case Diploma => "دبلوم"
    case Bachelor => "بكالوريوس"
    case Master => "ماجستير"
    case Phd => "دكتوراه"
    case Student => "طالب حالي"
  }

  datatype ExperienceYears = ZeroToOne | OneToThree | ThreeToFive | FiveToTen | TenPlus

  datatype LanguageLevel = Beginner | Intermediate | Advanced | Native

  /** The string value of each language level. */
  function LevelValue(l: LanguageLevel): string {
    match l
    case Beginner => "مبتدئ (A1-A2)"
    case Intermediate => "متوسط (B1-B2)"
    case Advanced => "متقدم (C1-C2)"
    case Native => "لغة أم"
  }

  /** The lifecycle of one registration; absence of a record is "not registered". */
  datatype OpportunityStatus = Completed | Registered | Cancelled

  datatype RegisteredOpportunity = RegisteredOpportunity(
    opportunityId: int,
    status: OpportunityStatus,
    applicationText: Option<string>)

  datatype VolunteerLanguage = VolunteerLanguage(language: string, level: LanguageLevel)

  /**
   * An opportunity of the catalogue. `applicationDeadline` is a `YYYY-MM-DD`
   * string; `startDate` is held as the time value `new Date(startDate)`
   * yields (the parsing itself is not modelled).
   */
  datatype Opportunity = Opportunity(
    id: int,
    title: string,
    organization: string,
    workStyle: WorkStyle,
    applicationDeadline: string,
    city: Option<string>,
    skillTags: seq<string>,
    isFeatured: Option<bool>,
    startDate: Option<int>,
    category: OpportunityCategory,
    lat: real,
    lng: real,
    rating: real,
    reviewsCount: int,
    points: int,
    hours: int)

  /**
   * A volunteer profile. The platform-managed part is
   * `registeredOpportunities`, `badges`, `hours`, `points` and
   * `reviewedOpportunityIds`.
   */
  datatype Volunteer = Volunteer(
    id: int,
    fullName: string,
    email: string,
    phone: string,
    nationalId: Option<string>,
    city: string,
    birthDate: string,
    profilePictureUrl: Option<string>,
    shortBio: string,
    academicQualification: AcademicQualification,
    specialization: string,
    university: Option<string>,
    graduationYear: string,
    experienceYears: ExperienceYears,
    skills: seq<string>,
    languages: seq<VolunteerLanguage>,
    motivation: string,
    commitmentLevel: int,
    registeredOpportunities: seq<RegisteredOpportunity>,
    badges: seq<int>,
    hours: int,
    points: int,
    reviewedOpportunityIds: seq<int>)

  datatype Badge = Badge(id: int, name: string)
}
