/** The seven-step form in which a user fills in their personal details and
    the six chapters: the validation rule, the step cursor and the save
    request. */
module SectionsWizard {
  import opened Wrappers
  import opened Biography

  /** The personal-details part of the form. The three optional fields may
      be missing. */
  datatype PersonalValues = PersonalValues(
    name: string,
    dateOfBirth: Option<string>,
    birthplace: Option<string>,
    background: Option<string>)

  /** Everything the form holds: the personal details and one summary per
      chapter. */
  datatype FormValues = FormValues(
    personalInformation: PersonalValues,
    childhoodMemories: string,
    educationJourney: string,
    careerAchievements: string,
    familyRelationships: string,
    challengesLessons: string,
    dreamsBeliefs: string)
  {
    /** The summary typed for the chapter `kind`. */
    function Summary(kind: SectionKind): string {
      match kind
      case ChildhoodMemories => childhoodMemories
      case EducationJourney => educationJourney
      case CareerAchievements => careerAchievements
      case FamilyRelationships => familyRelationships
      case ChallengesLessons => challengesLessons
      case DreamsBeliefs => dreamsBeliefs
    }
  }

  /** The form schema: a name and all six summaries must be at least one
      character long. Nothing is trimmed, so a single space passes. */
  predicate Valid(v: FormValues) {
    && |v.personalInformation.name| >= 1
    && |v.childhoodMemories| >= 1
    && |v.educationJourney| >= 1
    && |v.careerAchievements| >= 1
    && |v.familyRelationships| >= 1
    && |v.challengesLessons| >= 1
    && |v.dreamsBeliefs| >= 1
  }

  /** The schema reads as "a non-empty name and a non-empty summary for
      every chapter"; the date of birth, birthplace and background never
      decide it. */
  lemma ValidMeansFilledIn(v: FormValues, dateOfBirth: Option<string>,
                           birthplace: Option<string>, background: Option<string>)
    ensures Valid(v) <==>
              v.personalInformation.name != "" && forall kind :: v.Summary(kind) != ""
    ensures var p := v.personalInformation;
            Valid(v) == Valid(v.(personalInformation :=
                                   PersonalValues(p.name, dateOfBirth, birthplace, background)))
  {
    if !Valid(v) {
      if v.childhoodMemories == "" { assert v.Summary(ChildhoodMemories) == ""; }
      if v.educationJourney == "" { assert v.Summary(EducationJourney) == ""; }
      if v.careerAchievements == "" { assert v.Summary(CareerAchievements) == ""; }
      if v.familyRelationships == "" { assert v.Summary(FamilyRelationships) == ""; }
      if v.challengesLessons == "" { assert v.Summary(ChallengesLessons) == ""; }
      if v.dreamsBeliefs == "" { assert v.Summary(DreamsBeliefs) == ""; }
    }
  }

  /** What a step shows: the personal details, or one chapter. */
  datatype StepId = PersonalStep | ChapterStep(kind: SectionKind)

  datatype WizardStep = WizardStep(id: StepId, title: string, description: string)

  const Steps: seq<WizardStep> := [
    WizardStep(PersonalStep, "Personal Information", "Lay the foundation for your story."),
    WizardStep(ChapterStep(ChildhoodMemories), "Childhood Memories",
               "Capture the earliest chapters of your life."),
    WizardStep(ChapterStep(EducationJourney), "Education Journey",
               "Document how learning shaped you."),
    WizardStep(ChapterStep(CareerAchievements), "Career & Achievements",
               "Highlight milestones from your work life."),
    WizardStep(ChapterStep(FamilyRelationships), "Family & Relationships",
               "Celebrate meaningful connections."),
    WizardStep(ChapterStep(ChallengesLessons), "Life Challenges & Lessons",
               "Share how you grew through adversity."),
    WizardStep(ChapterStep(DreamsBeliefs), "Dreams, Beliefs & Future Goals",
               "Look ahead to what comes next.")
  ]

  /** The index of the last step, where "Next" becomes "Save all". */
  const LastStep: int := |Steps| - 1

  /** Seven steps: the personal details first, then the chapters in the
      record's order, each titled as the exports title it. */
  lemma StepsInOrder()
    ensures |Steps| == 7 && LastStep == 6
    ensures Steps[0].id == PersonalStep
    ensures forall i :: 0 <= i < 6 ==>
              Steps[i + 1].id == ChapterStep(SectionOrder[i])
              && Steps[i + 1].title == SectionTitle(SectionOrder[i])
  {
  }

  function Min(a: int, b: int): int { if a <= b then a else b }
  function Max(a: int, b: int): int { if a >= b then a else b }

  /** The body of the save request: the personal details as they are and
      each chapter wrapped as `{summary}`. */
  datatype SavePayload = SavePayload(
    personalInformation: PersonalValues,
    childhoodMemories: LifeSection,
    educationJourney: LifeSection,
    careerAchievements: LifeSection,
    familyRelationships: LifeSection,
    challengesLessons: LifeSection,
    dreamsBeliefs: LifeSection)
  {
    function Section(kind: SectionKind): LifeSection {
      match kind
      case ChildhoodMemories => childhoodMemories
      case EducationJourney => educationJourney
      case CareerAchievements => careerAchievements
      case FamilyRelationships => familyRelationships
      case ChallengesLessons => challengesLessons
      case DreamsBeliefs => dreamsBeliefs
    }
  }

  /** The request body sent when the form is saved. */
  function Persist(v: FormValues): (r: SavePayload)
    ensures r.personalInformation == v.personalInformation
    ensures forall kind :: r.Section(kind) == LifeSection(v.Summary(kind))
  {
    SavePayload(v.personalInformation,
                LifeSection(v.childhoodMemories), LifeSection(v.educationJourney),
                LifeSection(v.careerAchievements), LifeSection(v.familyRelationships),
                LifeSection(v.challengesLessons), LifeSection(v.dreamsBeliefs))
  }

  /** The values the form starts from (and is reset to) for a stored
      record. */
  function Load(bio: BiographyDocument): (r: FormValues)
    ensures r.personalInformation.name == bio.personalInformation.name
    ensures forall kind :: r.Summary(kind) == bio.Section(kind).summary
  {
    var p := bio.personalInformation;
    FormValues(PersonalValues(p.name, Some(p.dateOfBirth), Some(p.birthplace), Some(p.background)),
               bio.childhoodMemories.summary, bio.educationJourney.summary,
               bio.careerAchievements.summary, bio.familyRelationships.summary,
               bio.challengesLessons.summary, bio.dreamsBeliefs.summary)
  }

  /** Saving an untouched form sends the record's own details and chapters
      back. */
  lemma SaveUnchangedRoundTrip(bio: BiographyDocument)
    ensures var p := bio.personalInformation;
            Persist(Load(bio)).personalInformation
            == PersonalValues(p.name, Some(p.dateOfBirth), Some(p.birthplace), Some(p.background))
    ensures forall kind :: Persist(Load(bio)).Section(kind) == bio.Section(kind)
  {
    forall kind ensures Persist(Load(bio)).Section(kind) == bio.Section(kind) {
      assert Load(bio).Summary(kind) == bio.Section(kind).summary;
    }
  }

  /** The cursor after an action, and the save request it sent, if any. */
  datatype Transition = Transition(step: int, sent: Option<SavePayload>)

  /** "Next": the whole form is validated, whatever step is shown. An invalid
      form changes nothing; a valid one moves one step on, or is saved on
      the last step. */
  function HandleNext(step: int, v: FormValues): (r: Transition)
    ensures !Valid(v) ==> r == Transition(step, None)
    ensures Valid(v) && step == LastStep ==> r == Transition(step, Some(Persist(v)))
    ensures Valid(v) && 0 <= step < LastStep ==> r == Transition(step + 1, None)
    ensures 0 <= step <= LastStep ==> 0 <= r.step <= LastStep
    ensures r.sent.Some? ==> Valid(v) && r.sent == Some(Persist(v))
  {
    if !Valid(v) then Transition(step, None)
    else if step == LastStep then Transition(step, Some(Persist(v)))
    else Transition(Min(step + 1, LastStep), None)
  }

  /** "Previous": one step back, never before the first. */
  function HandlePrev(step: int): (r: int)
    ensures 0 < step <= LastStep ==> r == step - 1
    ensures step <= 0 ==> r == 0
    ensures 0 <= step <= LastStep ==> 0 <= r <= LastStep
  {
    Max(step - 1, 0)
  }

  /** What the user can do: press "Next" or "Previous", click a numbered
      step button, or press "Quick save", which saves without validating. */
  datatype WizardAction =
    | Next(values: FormValues)
    | Prev
    | Jump(index: int)
    | QuickSave(values: FormValues)

  function Apply(step: int, a: WizardAction): (r: Transition)
    ensures a.QuickSave? ==> r == Transition(step, Some(Persist(a.values)))
    ensures a.Jump? ==> r == Transition(a.index, None)
  {
    match a
    case Next(v) => HandleNext(step, v)
    case Prev => Transition(HandlePrev(step), None)
    case Jump(index) => Transition(index, None)
    case QuickSave(v) => Transition(step, Some(Persist(v)))
  }

  /** The step buttons are rendered one per step, so a click lands on a
      step that exists. */
  predicate ClicksOnButtons(actions: seq<WizardAction>) {
    forall i :: 0 <= i < |actions| && actions[i].Jump? ==>
      0 <= actions[i].index < |Steps|
  }

  /** The cursor after a session, and every save request sent, in order. */
  function Run(step: int, actions: seq<WizardAction>): (r: (int, seq<SavePayload>))
    decreases |actions|
  {
    if actions == [] then (step, [])
    else
      var t := Apply(step, actions[0]);
      var rest := Run(t.step, actions[1..]);
      (rest.0, (if t.sent.Some? then [t.sent.value] else []) + rest.1)
  }

  /** Starting on the first step, the cursor always names an existing step,
      so the shown step is always defined. */
  lemma {:induction false} RunStaysOnSteps(step: int, actions: seq<WizardAction>)
    requires 0 <= step <= LastStep
    requires ClicksOnButtons(actions)
    ensures 0 <= Run(step, actions).0 <= LastStep
    decreases |actions|
  {
    if actions != [] {
      var t := Apply(step, actions[0]);
      assert 0 <= t.step <= LastStep;
      assert ClicksOnButtons(actions[1..]) by {
        forall i | 0 <= i < |actions[1..]| && actions[1..][i].Jump?
          ensures 0 <= actions[1..][i].index < |Steps|
        {
          assert actions[1..][i] == actions[i + 1];
        }
      }
      RunStaysOnSteps(t.step, actions[1..]);
    }
  }

  /** A session of "Next" and "Previous" presses alone only ever saves a
      form that passed validation. */
  predicate Validated(actions: seq<WizardAction>) {
    forall i :: 0 <= i < |actions| ==> actions[i].Next? || actions[i].Prev?
  }

  lemma {:induction false} NavigationSavesOnlyValid(step: int, actions: seq<WizardAction>)
    requires Validated(actions)
    ensures forall p :: p in Run(step, actions).1 ==>
              exists i :: 0 <= i < |actions| && actions[i].Next? && Valid(actions[i].values)
                          && p == Persist(actions[i].values)
    decreases |actions|
  {
    if actions != [] {
      var t := Apply(step, actions[0]);
      assert Validated(actions[1..]) by {
        forall i | 0 <= i < |actions[1..]| ensures actions[1..][i].Next? || actions[1..][i].Prev? {
          assert actions[1..][i] == actions[i + 1];
        }
      }
      NavigationSavesOnlyValid(t.step, actions[1..]);
      forall p | p in Run(step, actions).1
        ensures exists i :: 0 <= i < |actions| && actions[i].Next? && Valid(actions[i].values)
                          && p == Persist(actions[i].values)
      {
        if t.sent.Some? && p == t.sent.value {
          assert actions[0].Next? && Valid(actions[0].values) && p == Persist(actions[0].values);
        } else {
          assert p in Run(t.step, actions[1..]).1;
          var j :| 0 <= j < |actions[1..]| && actions[1..][j].Next? && Valid(actions[1..][j].values)
                   && p == Persist(actions[1..][j].values);
          assert actions[1..][j] == actions[j + 1];
        }
      }
    }
  }
}
