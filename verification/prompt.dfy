/** The story-generation route: the prompt assembled from a biography record
    and a writing style, and the request handler around the text generator. */
module Prompt {
  import opened Wrappers
  import opened Text
  import opened Biography

  // ---------------------------------------------------------------------
  // Writing style
  // ---------------------------------------------------------------------

  /** The fixed guidance sentence the prompt gives for each style. */
  function StyleGuidance(style: WritingStyle): string {
    match style
    case Emotional =>
      "Write with emotional depth and warmth. Emphasize sensory detail and internal reflections."
    case Professional =>
      "Write with clear structure, polished language, and a confident, inspiring tone suited for professional audiences."
    case Simple =>
      "Write in friendly, easy-to-read language. Use short sentences and conversational tone."
    case Poetic =>
      "Write lyrically with rich imagery, metaphors, and rhythm while keeping the narrative coherent."
  }

  /** The style named by a request string, if any. The route only casts the
      request value, so any string reaches the prompt builder. */
  function StyleFromName(name: string): (r: Option<WritingStyle>)
    ensures r.Some? ==> StyleName(r.value) == name
    ensures forall style :: StyleName(style) == name ==> r == Some(style)
  {
    if name == StyleName(Emotional) then Some(Emotional)
    else if name == StyleName(Professional) then Some(Professional)
    else if name == StyleName(Simple) then Some(Simple)
    else if name == StyleName(Poetic) then Some(Poetic)
    else None
  }

  /** `styleMap[style]` interpolated into the template: the guidance
      sentence of a known style, and the text `undefined` for any other
      string. */
  function Guidance(name: string): (r: string)
    ensures StyleFromName(name).Some? ==> r == StyleGuidance(StyleFromName(name).value)
    ensures StyleFromName(name).None? ==> r == "undefined"
  {
    match StyleFromName(name)
    case Some(style) => StyleGuidance(style)
    case None => "undefined"
  }

  const VoicePrefix: string := "Desired voice: "

  /** The "Desired voice" line of the prompt (U+2014 is the em dash). */
  function VoiceLine(name: string): string {
    VoicePrefix + ToUpper(name) + (" — " + Guidance(name) + ".")
  }

  /** The second letter of each capitalised style name; the four differ. */
  function StyleCode(style: WritingStyle): char {
    match style
    case Emotional => 'M'
    case Professional => 'R'
    case Simple => 'I'
    case Poetic => 'O'
  }

  /** The capitalised style name starts at the sixteenth character of the
      voice line. */
  lemma VoiceLineStart(name: string)
    requires |name| >= 2
    ensures |VoiceLine(name)| >= 17
    ensures VoiceLine(name)[16] == UpperChar(name[1])
  {
    var head := VoicePrefix + ToUpper(name);
    assert |VoicePrefix| == 15;
    assert head[16] == ToUpper(name)[1];
  }

  /** The style names' second letters, capitalised, are the style codes. */
  lemma StyleNameCode(style: WritingStyle)
    ensures |StyleName(style)| >= 2
    ensures UpperChar(StyleName(style)[1]) == StyleCode(style)
  {
    var name := StyleName(style);
    match style
    case Emotional => assert name[1] == 'm';
    case Professional => assert name[1] == 'r';
    case Simple => assert name[1] == 'i';
    case Poetic => assert name[1] == 'o';
  }

  /** The voice line of a known style carries that style's own guidance
      sentence. */
  lemma VoiceLineOfStyle(style: WritingStyle)
    ensures VoiceLine(StyleName(style))
      == VoicePrefix + ToUpper(StyleName(style)) + (" — " + StyleGuidance(style) + ".")
  {
    assert StyleFromName(StyleName(style)) == Some(style);
  }

  /** Style names whose second letters capitalise differently give
      different voice lines. */
  lemma VoiceLinesDiffer(a: string, b: string)
    requires |a| >= 2 && |b| >= 2 && UpperChar(a[1]) != UpperChar(b[1])
    ensures VoiceLine(a) != VoiceLine(b)
  {
    VoiceLineStart(a);
    VoiceLineStart(b);
  }

  /** Different styles give different voice lines, so the voice line
      identifies the requested style. */
  lemma VoiceLineIdentifiesStyle(a: WritingStyle, b: WritingStyle)
    ensures VoiceLine(StyleName(a)) == VoiceLine(StyleName(b)) <==> a == b
  {
    if a != b {
      StyleNameCode(a);
      StyleNameCode(b);
      assert StyleCode(a) != StyleCode(b);
      VoiceLinesDiffer(StyleName(a), StyleName(b));
    }
  }

  /** The request's style, `payload?.style ?? "emotional"`: a missing or
      null field selects the emotional voice, a string is taken as it is,
      and any other JSON value makes the builder's `toUpperCase` call throw
      (`None`). */
  function RequestedStyle(field: JsonField): (r: Option<string>)
    ensures r.None? <==> field.Other?
    ensures field.IsNullish() ==> r == Some(StyleName(Emotional))
    ensures field.Str? ==> r == Some(field.text)
  {
    match field
    case Absent => Some(StyleName(Emotional))
    case Null => Some(StyleName(Emotional))
    case Str(s) => Some(s)
    case Other => None
  }

  /** A request without a style is written in the emotional voice. */
  lemma DefaultStyleIsEmotional(field: JsonField)
    requires field.IsNullish()
    ensures RequestedStyle(field).Some?
    ensures StyleFromName(RequestedStyle(field).value) == Some(Emotional)
    ensures VoiceLine(RequestedStyle(field).value)
      == VoicePrefix + ToUpper(StyleName(Emotional)) + (" — " + StyleGuidance(Emotional) + ".")
  {
    VoiceLineOfStyle(Emotional);
  }

  // ---------------------------------------------------------------------
  // Record fields
  // ---------------------------------------------------------------------

  const UnknownValue: string := "Unknown"
  const NoBackground: string := "No background provided"
  const NoContent: string := "No content"
  const NoEvents: string := "No events provided"

  const Intro: string :=
    "You are an award-winning memoir writer. Using the data provided, craft a compelling autobiography chapter outline and narrative."
  const StructureLines: seq<string> := [
    "Structure the response using:",
    "1. Title",
    "2. Subtitle or opening quote",
    "3. Chronological sections with headings (Childhood, Education, Career, Family, Challenges, Dreams)",
    "4. Each section should include paragraphs weaving facts with reflections.",
    "5. Conclude with a resonant closing paragraph about future aspirations."]
  const Closing: string :=
    "Blend the timeline into the narrative where natural. Avoid repeating raw bullet lists. Produce Markdown-friendly output."

  /** `label: ${value || placeholder}`, the shape of every record line of
      the prompt. */
  function ValueLine(key: string, value: string, placeholder: string): string {
    key + ": " + Or(value, placeholder)
  }

  /** The text after a record line's label is the field when it is
      non-empty and the placeholder otherwise, so it is never empty. */
  lemma ValueLineReadsBack(key: string, value: string, placeholder: string)
    requires placeholder != ""
    ensures StartsWith(ValueLine(key, value, placeholder), key + ": ")
    ensures |ValueLine(key, value, placeholder)| > |key| + 2
    ensures value != "" ==> ValueLine(key, value, placeholder)[|key| + 2..] == value
    ensures value == "" ==> ValueLine(key, value, placeholder)[|key| + 2..] == placeholder
  {
    var line := ValueLine(key, value, placeholder);
    assert line == (key + ": ") + Or(value, placeholder);
  }

  /** The four personal details, each empty value replaced by its
      placeholder. */
  function PersonalDetailLines(pi: PersonalInformation): (r: seq<string>)
    ensures |r| == 4
  {
    [ValueLine("- Name", pi.name, UnknownValue),
     ValueLine("- Birthdate", pi.dateOfBirth, UnknownValue),
     ValueLine("- Birthplace", pi.birthplace, UnknownValue),
     ValueLine("- Background", pi.background, NoBackground)]
  }

  /** The chapter labels the prompt uses; they differ from the chapter
      headings of the exports in capitalisation. */
  function PromptLabel(kind: SectionKind): string {
    match kind
    case ChildhoodMemories => "Childhood memories"
    case EducationJourney => "Education journey"
    case CareerAchievements => "Career & achievements"
    case FamilyRelationships => "Family & relationships"
    case ChallengesLessons => "Life challenges & lessons"
    case DreamsBeliefs => "Dreams, beliefs & future goals"
  }

  /** One line per chapter, in the fixed chapter order. */
  function SectionLines(bio: BiographyDocument): (r: seq<string>)
    ensures |r| == 6
    ensures forall i :: 0 <= i < 6 ==>
      r[i] == ValueLine(PromptLabel(SectionOrder[i]), bio.Section(SectionOrder[i]).summary, NoContent)
  {
    seq(6, i requires 0 <= i < 6 =>
      ValueLine(PromptLabel(SectionOrder[i]), bio.Section(SectionOrder[i]).summary, NoContent))
  }

  // ---------------------------------------------------------------------
  // Timeline
  // ---------------------------------------------------------------------

  /** ` Notes: …` for truthy notes, nothing otherwise. */
  function NotesSuffix(notes: Option<string>): (r: string)
    ensures r == "" <==> !Truthy(notes)
  {
    if Truthy(notes) then " Notes: " + notes.value else ""
  }

  /** An event's text after its number: title, date in parentheses,
      description and the optional notes. */
  function EventText(e: TimelineEvent): string {
    e.title + " (" + e.date + ") - " + e.description + NotesSuffix(e.notes)
  }

  /** The numbered line of the event at 1-based position `n`. */
  function EventPromptLine(n: nat, e: TimelineEvent): string {
    NatToString(n) + (". " + EventText(e))
  }

  /** The events' lines, numbered from 1 in list order. */
  function EventPromptLines(events: seq<TimelineEvent>): (r: seq<string>)
    ensures |r| == |events|
    ensures forall i :: 0 <= i < |events| ==> r[i] == EventPromptLine(i + 1, events[i])
  {
    seq(|events|, i requires 0 <= i < |events| => EventPromptLine(i + 1, events[i]))
  }

  /** Every event line starts with its 1-based number followed by `. `, and
      its leading digits read back as that number. */
  lemma EventNumbering(events: seq<TimelineEvent>, i: nat)
    requires i < |events|
    ensures StartsWith(EventPromptLines(events)[i], NatToString(i + 1) + ". ")
    ensures DecimalValue(LeadingDigits(EventPromptLines(events)[i])) == i + 1
  {
    var d := NatToString(i + 1);
    var rest := ". " + EventText(events[i]);
    assert EventPromptLines(events)[i] == d + rest;
    assert (d + rest)[..|d| + 2] == d + ". ";
    LeadingDigitsOf(d, rest);
  }

  /** The numbered event lines joined by newlines, or the placeholder when
      that text is empty. */
  function TimelineText(events: seq<TimelineEvent>): string {
    Or(JoinLines(EventPromptLines(events)), NoEvents)
  }

  /** The timeline block as lines: the placeholder alone for an empty
      timeline, else one numbered line per event. */
  function TimelineLines(events: seq<TimelineEvent>): (r: seq<string>)
    ensures |r| >= 1
  {
    if events == [] then [NoEvents] else EventPromptLines(events)
  }

  /** The placeholder appears exactly when the timeline is empty; otherwise
      the block is the events' lines joined by newlines. */
  lemma TimelinePlaceholder(events: seq<TimelineEvent>)
    ensures TimelineText(events) == NoEvents <==> events == []
    ensures TimelineText(events) == JoinLines(TimelineLines(events))
  {
    if events != [] {
      var lines := EventPromptLines(events);
      JoinStartsWithFirst(lines);
      assert lines[0] == NatToString(1) + (". " + EventText(events[0]));
      assert NatToString(1) == "1";
      assert JoinLines(lines)[0] == '1';
      assert NoEvents[0] == 'N';
    }
  }

  /** None of an event's fields spans several lines. */
  predicate EventSingleLine(e: TimelineEvent) {
    && '\n' !in e.title && '\n' !in e.date && '\n' !in e.description
    && (e.notes.Some? ==> '\n' !in e.notes.value)
  }

  /** With single-line event fields, splitting the block gives back exactly
      one line per event, in list order. */
  lemma TimelineSplit(events: seq<TimelineEvent>)
    requires events != []
    requires forall i :: 0 <= i < |events| ==> EventSingleLine(events[i])
    ensures SplitLines(TimelineText(events)) == EventPromptLines(events)
  {
    var lines := EventPromptLines(events);
    forall i | 0 <= i < |lines| ensures '\n' !in lines[i] {
      var e := events[i];
      var d := NatToString(i + 1);
      assert IsDigit(d[0]) ==> d[0] != '\n';
      assert '\n' !in d;
      assert '\n' !in NotesSuffix(e.notes);
      assert '\n' !in EventText(e);
      assert lines[i] == d + (". " + EventText(e));
    }
    TimelinePlaceholder(events);
    SplitJoin(lines);
  }

  // ---------------------------------------------------------------------
  // The prompt
  // ---------------------------------------------------------------------

  /** The template's lines up to the voice line and the blank after it.
      The template opens with a line break, so its first line is empty. */
  function OpeningLines(styleName: string): seq<string> {
    ["", Intro, "", VoiceLine(styleName), ""]
  }

  /** The record's lines: personal details, then the chapters. */
  function RecordLines(bio: BiographyDocument): seq<string> {
    ["", "Personal details:"] + PersonalDetailLines(bio.personalInformation)
      + [""] + SectionLines(bio)
  }

  /** The template's lines before the timeline block. */
  function HeadLines(bio: BiographyDocument, styleName: string): seq<string> {
    OpeningLines(styleName) + StructureLines + RecordLines(bio) + ["", "Timeline events:"]
  }

  const TailLines: seq<string> := ["", Closing]

  /** The template's pieces in order: the head, the timeline block, then a
      blank line and the closing instruction. */
  function PromptSegments(bio: BiographyDocument, styleName: string): seq<string> {
    HeadLines(bio, styleName) + [TimelineText(bio.timeline)] + TailLines
  }

  /** `buildPrompt(data, style)`. */
  function BuildPrompt(bio: BiographyDocument, styleName: string): string {
    JoinLines(PromptSegments(bio, styleName))
  }

  lemma RecordLinesShape(bio: BiographyDocument)
    ensures |RecordLines(bio)| == 13
    ensures RecordLines(bio)[1] == "Personal details:"
    ensures forall k :: 0 <= k < 4 ==> RecordLines(bio)[2 + k] == PersonalDetailLines(bio.personalInformation)[k]
    ensures forall k :: 0 <= k < 6 ==> RecordLines(bio)[7 + k] == SectionLines(bio)[k]
  {
  }

  lemma OpeningShape(styleName: string)
    ensures |OpeningLines(styleName)| == 5
    ensures OpeningLines(styleName)[0] == "" && OpeningLines(styleName)[3] == VoiceLine(styleName)
  {
  }

  lemma StructureCount()
    ensures |StructureLines| == 6
  {
  }

  lemma HeadLinesShape(bio: BiographyDocument, styleName: string)
    ensures |HeadLines(bio, styleName)| == 26
    ensures HeadLines(bio, styleName)[0] == ""
    ensures HeadLines(bio, styleName)[3] == VoiceLine(styleName)
    ensures forall k :: 0 <= k < 13 ==> HeadLines(bio, styleName)[11 + k] == RecordLines(bio)[k]
    ensures HeadLines(bio, styleName)[25] == "Timeline events:"
  {
    var open := OpeningLines(styleName);
    RecordLinesShape(bio);
    OpeningShape(styleName);
    StructureCount();
    IndexInside(open, StructureLines + RecordLines(bio) + ["", "Timeline events:"]);
    IndexAcross(open + StructureLines, RecordLines(bio), ["", "Timeline events:"]);
  }

  lemma SegmentsShape(bio: BiographyDocument, styleName: string)
    ensures |PromptSegments(bio, styleName)| == 29
    ensures forall k :: 0 <= k < 26 ==> PromptSegments(bio, styleName)[k] == HeadLines(bio, styleName)[k]
    ensures PromptSegments(bio, styleName)[26] == TimelineText(bio.timeline)
    ensures PromptSegments(bio, styleName)[28] == Closing
  {
    HeadLinesShape(bio, styleName);
  }

  /** Where each part of the record sits among the prompt's pieces: the
      voice line third after the opening blank line and introduction, the
      personal details under their heading, the chapters in the fixed
      order, the timeline block after its heading, and the closing
      instruction last. */
  lemma PromptShape(bio: BiographyDocument, styleName: string)
    ensures |PromptSegments(bio, styleName)| == 29
    ensures PromptSegments(bio, styleName)[0] == ""
    ensures PromptSegments(bio, styleName)[3] == VoiceLine(styleName)
    ensures PromptSegments(bio, styleName)[12] == "Personal details:"
    ensures forall k :: 0 <= k < 4 ==>
      PromptSegments(bio, styleName)[13 + k] == PersonalDetailLines(bio.personalInformation)[k]
    ensures forall k :: 0 <= k < 6 ==>
      PromptSegments(bio, styleName)[18 + k] == SectionLines(bio)[k]
    ensures PromptSegments(bio, styleName)[25] == "Timeline events:"
    ensures PromptSegments(bio, styleName)[26] == TimelineText(bio.timeline)
    ensures PromptSegments(bio, styleName)[28] == Closing
  {
    SegmentsShape(bio, styleName);
    HeadLinesShape(bio, styleName);
    RecordLinesShape(bio);
    var head := HeadLines(bio, styleName);
    var rec := RecordLines(bio);
    assert head[12] == rec[1];
  }

  /** The prompt opens with a line break and ends with the closing
      instruction, whatever the record and style. */
  lemma PromptFraming(bio: BiographyDocument, styleName: string)
    ensures |BuildPrompt(bio, styleName)| > |Closing|
    ensures BuildPrompt(bio, styleName)[0] == '\n'
    ensures BuildPrompt(bio, styleName)[|BuildPrompt(bio, styleName)| - |Closing|..] == Closing
  {
    SegmentsShape(bio, styleName);
    HeadLinesShape(bio, styleName);
    JoinFramed(PromptSegments(bio, styleName), Closing);
  }

  /** The prompt is the join of its head, the timeline block's own lines
      and its tail: the events appear one per line, numbered in list
      order, between `Timeline events:` and the closing instruction. */
  lemma PromptLines(bio: BiographyDocument, styleName: string)
    ensures BuildPrompt(bio, styleName)
      == JoinLines(HeadLines(bio, styleName) + TimelineLines(bio.timeline) + TailLines)
  {
    var head := HeadLines(bio, styleName);
    TimelinePlaceholder(bio.timeline);
    assert |head| >= 1;
    JoinLinesFlatten(head, TimelineLines(bio.timeline), TailLines);
  }

  // ---------------------------------------------------------------------
  // The route
  // ---------------------------------------------------------------------

  /** The route's outcomes. `Generated` carries the trimmed story and the
      style string that are stored as the new draft and returned. */
  datatype GenerateResponse =
    | MissingApiKey          // 500 "GEMINI_API_KEY is not configured."
    | GenerateUnauthorized   // 401
    | GenerateFailed         // 500 "Failed to generate story"
    | Generated(story: string, style: string)

  /** `POST /api/generate`. `apiKey` is the configured key, `userId` the
      session's user id, `body` the request's `style` field (`None` when
      the body is not JSON), `bio` the caller's stored record and
      `generator` the text generator (`None` when the call fails). */
  function Generate(apiKey: Option<string>, userId: Option<string>, body: Option<JsonField>,
                    bio: BiographyDocument, generator: string -> Option<string>): (r: GenerateResponse)
    ensures r == MissingApiKey <==> !Truthy(apiKey)
    ensures r == GenerateUnauthorized <==> Truthy(apiKey) && !Truthy(userId)
    ensures r.Generated? <==>
      && Truthy(apiKey) && Truthy(userId) && body.Some?
      && RequestedStyle(body.value).Some?
      && generator(BuildPrompt(bio, RequestedStyle(body.value).value)).Some?
    ensures r.Generated? ==>
      && r.style == RequestedStyle(body.value).value
      && r.story == Trim(generator(BuildPrompt(bio, r.style)).value)
      && Trim(r.story) == r.story
  {
    if !Truthy(apiKey) then MissingApiKey
    else if !Truthy(userId) then GenerateUnauthorized
    else if body.None? then GenerateFailed
    else match RequestedStyle(body.value)
      case None => GenerateFailed
      case Some(style) =>
        match generator(BuildPrompt(bio, style))
        case None => GenerateFailed
        case Some(text) =>
          TrimIdempotent(text);
          Generated(Trim(text), style)
  }
}
