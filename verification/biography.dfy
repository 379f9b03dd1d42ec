/** The stored biography record and its parts, as declared by the
    application's shared types. */
module Biography {
  import opened Wrappers

  /** The narrative voice requested from the text generator. */
  datatype WritingStyle = Emotional | Professional | Simple | Poetic

  /** The style's name as it is written in requests and stored records. */
  function StyleName(style: WritingStyle): string {
    match style
    case Emotional => "emotional"
    case Professional => "professional"
    case Simple => "simple"
    case Poetic => "poetic"
  }

  /** One milestone. `imageUrl` and `notes` are optional. */
  datatype TimelineEvent = TimelineEvent(
    id: string,
    title: string,
    date: string,
    description: string,
    imageUrl: Option<string>,
    notes: Option<string>)

  /** Presentation settings. `subtitle`, `coverImage` and `favoriteQuote`
      are optional. */
  datatype Customization = Customization(
    title: string,
    subtitle: Option<string>,
    coverImage: Option<string>,
    fontFamily: string,
    favoriteQuote: Option<string>)

  datatype PersonalInformation = PersonalInformation(
    name: string,
    dateOfBirth: string,
    birthplace: string,
    background: string)

  /** A free-text chapter of the life story. */
  datatype LifeSection = LifeSection(summary: string)

  /** The six chapters, in display order. */
  datatype SectionKind =
    | ChildhoodMemories
    | EducationJourney
    | CareerAchievements
    | FamilyRelationships
    | ChallengesLessons
    | DreamsBeliefs

  const SectionOrder: seq<SectionKind> :=
    [ChildhoodMemories, EducationJourney, CareerAchievements,
     FamilyRelationships, ChallengesLessons, DreamsBeliefs]

  /** The chapter's human-readable title, shared by the wizard steps and the
      `### ` headings of both export fallbacks. */
  function SectionTitle(kind: SectionKind): string {
    match kind
    case ChildhoodMemories => "Childhood Memories"
    case EducationJourney => "Education Journey"
    case CareerAchievements => "Career & Achievements"
    case FamilyRelationships => "Family & Relationships"
    case ChallengesLessons => "Life Challenges & Lessons"
    case DreamsBeliefs => "Dreams, Beliefs & Future Goals"
  }

  /** The per-user aggregate. The record identifiers `_id` and `id` are not
      modelled; everything else is. */
  datatype BiographyDocument = BiographyDocument(
    userId: string,
    personalInformation: PersonalInformation,
    childhoodMemories: LifeSection,
    educationJourney: LifeSection,
    careerAchievements: LifeSection,
    familyRelationships: LifeSection,
    challengesLessons: LifeSection,
    dreamsBeliefs: LifeSection,
    timeline: seq<TimelineEvent>,
    storyDraft: Option<string>,
    style: WritingStyle,
    lastGeneratedAt: Option<string>,
    customization: Customization,
    isPublic: bool,
    publicId: Option<string>,
    updatedAt: string,
    createdAt: string)
  {
    /** The chapter stored under `kind`. */
    function Section(kind: SectionKind): LifeSection {
      match kind
      case ChildhoodMemories => childhoodMemories
      case EducationJourney => educationJourney
      case CareerAchievements => careerAchievements
      case FamilyRelationships => familyRelationships
      case ChallengesLessons => challengesLessons
      case DreamsBeliefs => dreamsBeliefs
    }
  }

  /** Every chapter kind occurs exactly once in the display order, and each
      chapter of a record is reached through its kind. */
  lemma SectionOrderComplete(kind: SectionKind)
    ensures |SectionOrder| == 6
    ensures exists i :: 0 <= i < 6 && SectionOrder[i] == kind
    ensures forall i, j :: 0 <= i < j < 6 ==> SectionOrder[i] != SectionOrder[j]
  {
    match kind
    case ChildhoodMemories => assert SectionOrder[0] == kind;
    case EducationJourney => assert SectionOrder[1] == kind;
    case CareerAchievements => assert SectionOrder[2] == kind;
    case FamilyRelationships => assert SectionOrder[3] == kind;
    case ChallengesLessons => assert SectionOrder[4] == kind;
    case DreamsBeliefs => assert SectionOrder[5] == kind;
  }
}
