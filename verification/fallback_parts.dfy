/** The pieces both export fallbacks build from a record: the title lines,
    the chapter headings and texts with their placeholders, and the facts
    about them that hold for either renderer. */
module FallbackParts {
  import opened Wrappers
  import opened Text
  import opened Biography
  import opened Markup

  const DefaultTitle: string := "Autobiography"
  const MissingValue: string := "N/A"
  const MissingChapter: string := "No content provided."

  /** `# title` (the default title when it is empty), then `## subtitle`
      only when the subtitle is present and non-empty. */
  function HeaderLines(c: Customization): seq<string> {
    [Heading1Marker + Or(c.title, DefaultTitle)]
    + (if Truthy(c.subtitle) then [Heading2Marker + c.subtitle.value] else [])
  }

  function ChapterHeading(kind: SectionKind): string {
    Heading3Marker + SectionTitle(kind)
  }

  /** A chapter's summary, or the placeholder when it is empty. */
  function ChapterText(bio: BiographyDocument, kind: SectionKind): string {
    Or(bio.Section(kind).summary, MissingChapter)
  }

  /** A chapter as both fallbacks print it: the `### ` heading line and the
      text line. */
  datatype ChapterLines = ChapterLines(heading: string, text: string)

  /** The six chapters of a record in display order. */
  function Chapters(bio: BiographyDocument): (cs: seq<ChapterLines>)
    ensures |cs| == 6
    ensures forall i :: 0 <= i < 6 ==>
              cs[i] == ChapterLines(ChapterHeading(SectionOrder[i]), ChapterText(bio, SectionOrder[i]))
  {
    seq(6, i requires 0 <= i < 6 =>
      ChapterLines(ChapterHeading(SectionOrder[i]), ChapterText(bio, SectionOrder[i])))
  }

  /** The chapters' lines with one blank line between consecutive chapters
      and none after the last. */
  function BlankSeparated(cs: seq<ChapterLines>): seq<string> {
    if cs == [] then []
    else
      [cs[0].heading, cs[0].text]
      + (if |cs| == 1 then [] else [""] + BlankSeparated(cs[1..]))
  }

  /** `n` chapters give `3n - 1` lines: chapter `i`'s heading at `3i`, its
      text at `3i + 1`, and a blank line at `3i + 2` except after the last. */
  lemma {:induction false} BlankSeparatedShape(cs: seq<ChapterLines>)
    requires |cs| >= 1
    ensures |BlankSeparated(cs)| == 3 * |cs| - 1
    ensures forall i :: 0 <= i < |cs| ==>
              && BlankSeparated(cs)[3 * i] == cs[i].heading
              && BlankSeparated(cs)[3 * i + 1] == cs[i].text
    ensures forall i :: 0 <= i < |cs| - 1 ==> BlankSeparated(cs)[3 * i + 2] == ""
  {
    var lines := BlankSeparated(cs);
    if |cs| == 1 {
      assert lines == [cs[0].heading, cs[0].text];
    } else {
      var tail := cs[1..];
      var rest := BlankSeparated(tail);
      BlankSeparatedShape(tail);
      assert lines == [cs[0].heading, cs[0].text, ""] + rest;
      forall i | 1 <= i < |cs|
        ensures lines[3 * i] == cs[i].heading
        ensures lines[3 * i + 1] == cs[i].text
        ensures i < |cs| - 1 ==> lines[3 * i + 2] == ""
      {
        var j := i - 1;
        assert tail[j] == cs[i];
        assert lines[3 * j + 3] == rest[3 * j];
        assert lines[3 * j + 4] == rest[3 * j + 1];
        if i < |cs| - 1 {
          assert lines[3 * j + 5] == rest[3 * j + 2];
        }
      }
    }
  }

  /** A property of every heading, every text and the blank line holds of
      every line of the block. */
  lemma {:induction false} BlankSeparatedLines(cs: seq<ChapterLines>, P: string -> bool)
    requires P("")
    requires forall i :: 0 <= i < |cs| ==> P(cs[i].heading) && P(cs[i].text)
    ensures forall k :: 0 <= k < |BlankSeparated(cs)| ==> P(BlankSeparated(cs)[k])
  {
    if |cs| > 1 {
      var tail := cs[1..];
      assert forall i :: 0 <= i < |tail| ==> tail[i] == cs[i + 1];
      BlankSeparatedLines(tail, P);
      var lines := BlankSeparated(cs);
      var rest := BlankSeparated(tail);
      assert lines == [cs[0].heading, cs[0].text, ""] + rest;
      forall k | 0 <= k < |lines| ensures P(lines[k]) {
        if k >= 3 {
          assert lines[k] == rest[k - 3];
        }
      }
    }
  }

  /** The chapter lines as both fallbacks print them. */
  function ChapterBlocks(bio: BiographyDocument): seq<string> {
    BlankSeparated(Chapters(bio))
  }

  /** Every chapter line is single-line when the summaries are, and none is a
      title line when no summary starts with `# `. */
  lemma ChapterBlocksLines(bio: BiographyDocument)
    ensures SingleLineFields(bio) ==> NoLineBreaks(ChapterBlocks(bio))
    ensures ChaptersNotTitles(bio) ==> NoTitleLines(ChapterBlocks(bio))
  {
    var cs := Chapters(bio);
    forall i | 0 <= i < |cs|
      ensures '\n' !in cs[i].heading && !StartsWith(cs[i].heading, Heading1Marker)
      ensures SingleLineFields(bio) ==> '\n' !in cs[i].text
      ensures ChaptersNotTitles(bio) ==> !StartsWith(cs[i].text, Heading1Marker)
    {
      ChapterLineFacts(bio, SectionOrder[i]);
    }
    if SingleLineFields(bio) {
      BlankSeparatedLines(cs, s => '\n' !in s);
    }
    if ChaptersNotTitles(bio) {
      NotTitleByChars("");
      BlankSeparatedLines(cs, s => !StartsWith(s, Heading1Marker));
    }
  }

  /** The record's free-text fields that the fallbacks embed hold no line
      break, so each becomes exactly one line. */
  predicate SingleLineFields(bio: BiographyDocument) {
    var c := bio.customization;
    var pi := bio.personalInformation;
    && '\n' !in c.title
    && (c.subtitle.Some? ==> '\n' !in c.subtitle.value)
    && (c.favoriteQuote.Some? ==> '\n' !in c.favoriteQuote.value)
    && '\n' !in pi.name && '\n' !in pi.dateOfBirth
    && '\n' !in pi.birthplace && '\n' !in pi.background
    && (forall k :: '\n' !in bio.Section(k).summary)
  }

  /** No chapter summary starts with the title marker. */
  predicate ChaptersNotTitles(bio: BiographyDocument) {
    forall k :: !StartsWith(bio.Section(k).summary, Heading1Marker)
  }

  /** None of the lines starts with the title marker. */
  predicate NoTitleLines(lines: seq<string>) {
    forall i :: 0 <= i < |lines| ==> !StartsWith(lines[i], Heading1Marker)
  }

  lemma NoTitleLinesConcat(a: seq<string>, b: seq<string>)
    ensures NoTitleLines(a + b) <==> NoTitleLines(a) && NoTitleLines(b)
  {
    if NoTitleLines(a) && NoTitleLines(b) {
      forall i | 0 <= i < |a + b| ensures !StartsWith((a + b)[i], Heading1Marker) {
        if i >= |a| {
          assert (a + b)[i] == b[i - |a|];
        }
      }
    }
    if NoTitleLines(a + b) {
      forall i | 0 <= i < |a| ensures !StartsWith(a[i], Heading1Marker) {
        assert (a + b)[i] == a[i];
      }
      forall i | 0 <= i < |b| ensures !StartsWith(b[i], Heading1Marker) {
        assert (a + b)[|a| + i] == b[i];
      }
    }
  }

  /** A line whose first character is not `#`, or whose second is `#`, is
      not a title line. */
  lemma NotTitleByChars(line: string)
    requires line == [] || line[0] != '#' || (|line| >= 2 && line[1] == '#')
    ensures !StartsWith(line, Heading1Marker)
  {
    MarkerChars(line);
  }

  /** The header is the title line, then the subtitle line exactly when
      there is a non-empty subtitle; only its first line is a title line,
      and with single-line fields it holds no line break. */
  lemma HeaderFacts(bio: BiographyDocument)
    ensures var h := HeaderLines(bio.customization);
            && |h| == (if Truthy(bio.customization.subtitle) then 2 else 1)
            && h[0] == "# " + Or(bio.customization.title, DefaultTitle)
            && (Truthy(bio.customization.subtitle) ==> h[1] == "## " + bio.customization.subtitle.value)
            && NoTitleLines(h[1..])
            && (SingleLineFields(bio) ==> NoLineBreaks(h))
  {
    var c := bio.customization;
    var h := HeaderLines(c);
    if Truthy(c.subtitle) {
      NotTitleByChars(h[1]);
    }
    if SingleLineFields(bio) {
      assert '\n' !in DefaultTitle;
      assert '\n' !in h[0];
    }
  }

  /** Chapter headings and chapter texts never break a line when the
      summaries do not, and are never title lines when no summary starts
      with the title marker. */
  lemma ChapterLineFacts(bio: BiographyDocument, kind: SectionKind)
    ensures !StartsWith(ChapterHeading(kind), Heading1Marker)
    ensures '\n' !in ChapterHeading(kind)
    ensures SingleLineFields(bio) ==> '\n' !in ChapterText(bio, kind)
    ensures ChaptersNotTitles(bio) ==> !StartsWith(ChapterText(bio, kind), Heading1Marker)
  {
    ChapterHeadingFacts(kind);
    if bio.Section(kind).summary == "" {
      NotTitleByChars(MissingChapter);
      NoBreakByChars(MissingChapter);
    }
  }

  lemma ChapterHeadingFacts(kind: SectionKind)
    ensures !StartsWith(ChapterHeading(kind), Heading1Marker)
    ensures '\n' !in ChapterHeading(kind)
  {
    NotTitleByChars(ChapterHeading(kind));
    NoBreakByChars(Heading3Marker);
    TitleSingleLine(kind);
    assert forall c :: c in ChapterHeading(kind) ==> c in Heading3Marker || c in SectionTitle(kind);
  }

  lemma NoBreakByChars(t: string)
    requires forall i :: 0 <= i < |t| ==> t[i] != '\n'
    ensures '\n' !in t
  {
  }

  lemma TitleSingleLine(kind: SectionKind)
    ensures '\n' !in SectionTitle(kind)
  {
    var t := SectionTitle(kind);
    match kind
    case ChildhoodMemories => NoBreakByChars(t);
    case EducationJourney => NoBreakByChars(t);
    case CareerAchievements => NoBreakByChars(t);
    case FamilyRelationships => NoBreakByChars(t);
    case ChallengesLessons => NoBreakByChars(t);
    case DreamsBeliefs => NoBreakByChars(t);
  }
}
