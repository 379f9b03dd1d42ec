/** The word-processor export route: the fallback text composed from the
    record, the line-by-line paragraph builder and the filename. */
module DocxExport {
  import opened Wrappers
  import opened Text
  import opened Biography
  import opened Markup
  import opened ExportRequest
  import opened FallbackParts

  /** The builder's heading styles that the route uses. `# ` maps to the
      document title style, not to heading level 1. */
  datatype HeadingLevel = TitleStyle | Heading2Style | Heading3Style

  /** A text run; `italics` is false where the route leaves it unset. */
  datatype TextRun = TextRun(text: string, italics: bool)

  /** One paragraph as handed to the document builder: either a plain `text`
      or a list of `children` runs, an optional heading style and an
      optional spacing after it (in twentieths of a point). */
  datatype Paragraph = Paragraph(
    text: Option<string>,
    heading: Option<HeadingLevel>,
    children: seq<TextRun>,
    spacingAfter: Option<nat>)

  const ParagraphSpacing: nat := 200

  const DocxContentType: string :=
    "application/vnd.openxmlformats-officedocument.wordprocessingml.document"

  /** The route's reading of one line. The blank test comes first, but as
      no marker can start a blank line and no two markers start the same
      line, each class is fixed by the line's own prefix. */
  function Classify(line: string): (c: LineClass)
    ensures c == Blank <==> IsBlank(line)
    ensures c == Heading1 <==> StartsWith(line, Heading1Marker)
    ensures c == Markup.Heading2 <==> StartsWith(line, Heading2Marker)
    ensures c == Markup.Heading3 <==> StartsWith(line, Heading3Marker)
    ensures c == Quote <==> StartsWith(line, QuoteMarker)
    ensures c != Starred
  {
    MarkerChars(line);
    if IsBlank(line) then
      BlankCarriesNoMarker(line);
      Blank
    else if StartsWith(line, Heading1Marker) then Heading1
    else if StartsWith(line, Heading2Marker) then Markup.Heading2
    else if StartsWith(line, Heading3Marker) then Markup.Heading3
    else if StartsWith(line, QuoteMarker) then Quote
    else Plain
  }

  /** The paragraph for one line. A whitespace-only line is an empty
      paragraph with spacing and never a heading; a heading keeps its text
      after the marker untrimmed; a quote is one italic run without the
      marker; any other line is one plain run of the whole line. */
  function LineParagraph(line: string): (p: Paragraph)
    ensures Classify(line) == Blank ==> p == Paragraph(Some(""), None, [], Some(ParagraphSpacing))
    ensures Classify(line) == Heading1 ==>
              p == Paragraph(Some(line[2..]), Some(TitleStyle), [], None)
    ensures Classify(line) == Markup.Heading2 ==>
              p == Paragraph(Some(line[3..]), Some(Heading2Style), [], None)
    ensures Classify(line) == Markup.Heading3 ==>
              p == Paragraph(Some(line[4..]), Some(Heading3Style), [], None)
    ensures Classify(line) == Quote ==>
              p == Paragraph(None, None, [TextRun(line[2..], true)], Some(ParagraphSpacing))
    ensures Classify(line) == Plain ==>
              p == Paragraph(None, None, [TextRun(line, false)], Some(ParagraphSpacing))
  {
    match Classify(line)
    case Blank => Paragraph(Some(""), None, [], Some(ParagraphSpacing))
    case Heading1 =>
      ReplaceFirstAtStart(line, Heading1Marker);
      Paragraph(Some(ReplaceFirst(line, Heading1Marker, "")), Some(TitleStyle), [], None)
    case Heading2 =>
      ReplaceFirstAtStart(line, Heading2Marker);
      Paragraph(Some(ReplaceFirst(line, Heading2Marker, "")), Some(Heading2Style), [], None)
    case Heading3 =>
      ReplaceFirstAtStart(line, Heading3Marker);
      Paragraph(Some(ReplaceFirst(line, Heading3Marker, "")), Some(Heading3Style), [], None)
    case Quote =>
      ReplaceFirstAtStart(line, QuoteMarker);
      Paragraph(None, None, [TextRun(ReplaceFirst(line, QuoteMarker, ""), true)], Some(ParagraphSpacing))
    case _ => Paragraph(None, None, [TextRun(line, false)], Some(ParagraphSpacing))
  }

  /** One paragraph per line, in order. */
  function RenderLines(lines: seq<string>): (ps: seq<Paragraph>)
    ensures |ps| == |lines|
    ensures forall i :: 0 <= i < |ps| ==> ps[i] == LineParagraph(lines[i])
  {
    seq(|lines|, i requires 0 <= i < |lines| => LineParagraph(lines[i]))
  }

  /** One paragraph per `"\n"`-separated line of the content, in order. */
  function BuildParagraphs(content: string): (ps: seq<Paragraph>)
    ensures |ps| == Count(content, '\n') + 1
    ensures forall i :: 0 <= i < |ps| ==> ps[i] == LineParagraph(SplitLines(content)[i])
  {
    RenderLines(SplitLines(content))
  }

  /** The personal information block: a blank line, its heading, the four
      values with `N/A` for empty ones, and a blank line. */
  function PersonalBlock(pi: PersonalInformation): seq<string> {
    ["",
     "### Personal Information",
     "Name: " + Or(pi.name, MissingValue),
     "Date of birth: " + Or(pi.dateOfBirth, MissingValue),
     "Birthplace: " + Or(pi.birthplace, MissingValue),
     "Background: " + Or(pi.background, MissingValue),
     ""]
  }

  /** A blank line and the quote, only when there is a favourite quote. */
  function QuoteTail(c: Customization): seq<string> {
    if Truthy(c.favoriteQuote) then ["", QuoteMarker + c.favoriteQuote.value] else []
  }

  /** The lines used when neither the request nor the record holds a story.
      Unlike the PDF fallback it has no `**` label markup and no timeline. */
  function FallbackSegments(bio: BiographyDocument): seq<string> {
    HeaderLines(bio.customization)
    + PersonalBlock(bio.personalInformation)
    + ChapterBlocks(bio)
    + QuoteTail(bio.customization)
  }

  function FallbackContent(bio: BiographyDocument): string {
    JoinLines(FallbackSegments(bio))
  }

  /** The personal block follows the header lines. */
  lemma FallbackPersonalLines(bio: BiographyDocument)
    ensures var segs := FallbackSegments(bio);
            var o := |HeaderLines(bio.customization)|;
            && |segs| >= o + 7
            && segs[o..o + 7] == PersonalBlock(bio.personalInformation)
  {
    var h := HeaderLines(bio.customization);
    var p := PersonalBlock(bio.personalInformation);
    assert FallbackSegments(bio) == h + p + (ChapterBlocks(bio) + QuoteTail(bio.customization));
  }

  /** Where the chapters sit in the fallback: after the header and the
      seven-line personal block, three lines per chapter. */
  lemma FallbackChapterLines(bio: BiographyDocument)
    ensures var segs := FallbackSegments(bio);
            var o := |HeaderLines(bio.customization)|;
            && |segs| >= o + 24
            && (forall i :: 0 <= i < 6 ==>
                  && segs[o + 7 + 3 * i] == "### " + SectionTitle(SectionOrder[i])
                  && segs[o + 8 + 3 * i] == Or(bio.Section(SectionOrder[i]).summary, "No content provided."))
            && (forall i :: 0 <= i < 5 ==> segs[o + 9 + 3 * i] == "")
  {
    var c := bio.customization;
    var h := HeaderLines(c);
    var p := PersonalBlock(bio.personalInformation);
    var cb := ChapterBlocks(bio);
    var segs := FallbackSegments(bio);
    var o := |h|;
    BlankSeparatedShape(Chapters(bio));
    assert segs == (h + p) + cb + QuoteTail(c);
    forall j | 0 <= j < 17 ensures segs[o + 7 + j] == cb[j] {}
  }

  /** The quote, when there is one, closes the fallback after a blank line. */
  lemma FallbackQuoteLines(bio: BiographyDocument)
    ensures var segs := FallbackSegments(bio);
            var o := |HeaderLines(bio.customization)|;
            var c := bio.customization;
            && |segs| == o + 24 + (if Truthy(c.favoriteQuote) then 2 else 0)
            && (Truthy(c.favoriteQuote) ==>
                  segs[o + 24] == "" && segs[o + 25] == "> " + c.favoriteQuote.value)
  {
    var c := bio.customization;
    var rest := HeaderLines(c) + PersonalBlock(bio.personalInformation) + ChapterBlocks(bio);
    BlankSeparatedShape(Chapters(bio));
    assert FallbackSegments(bio) == rest + QuoteTail(c);
  }

  /** The shape of the fallback: the title line (defaulting to
      `Autobiography`), the subtitle line only when there is a subtitle, the
      personal information block with `N/A` for empty values, then the six
      chapters in display order, each under its `### ` heading with its
      summary or `No content provided.`, and last a blank line and the quote
      only when there is a favourite quote. */
  lemma FallbackShape(bio: BiographyDocument)
    ensures var segs := FallbackSegments(bio);
            var o := |HeaderLines(bio.customization)|;
            var c := bio.customization;
            var pi := bio.personalInformation;
            && o == (if Truthy(c.subtitle) then 2 else 1)
            && |segs| == o + 24 + (if Truthy(c.favoriteQuote) then 2 else 0)
            && segs[0] == "# " + Or(c.title, "Autobiography")
            && (Truthy(c.subtitle) ==> segs[1] == "## " + c.subtitle.value)
            && segs[o] == ""
            && segs[o + 1] == "### Personal Information"
            && segs[o + 2] == "Name: " + Or(pi.name, "N/A")
            && segs[o + 3] == "Date of birth: " + Or(pi.dateOfBirth, "N/A")
            && segs[o + 4] == "Birthplace: " + Or(pi.birthplace, "N/A")
            && segs[o + 5] == "Background: " + Or(pi.background, "N/A")
            && segs[o + 6] == ""
            && (forall i :: 0 <= i < 6 ==>
                  && segs[o + 7 + 3 * i] == "### " + SectionTitle(SectionOrder[i])
                  && segs[o + 8 + 3 * i] == Or(bio.Section(SectionOrder[i]).summary, "No content provided."))
            && (forall i :: 0 <= i < 5 ==> segs[o + 9 + 3 * i] == "")
            && (Truthy(c.favoriteQuote) ==>
                  segs[o + 24] == "" && segs[o + 25] == "> " + c.favoriteQuote.value)
  {
    var segs := FallbackSegments(bio);
    var h := HeaderLines(bio.customization);
    var o := |h|;
    HeaderFacts(bio);
    assert segs[..o] == h;
    FallbackPersonalLines(bio);
    var pb := segs[o..o + 7];
    assert forall j :: 0 <= j < 7 ==> pb[j] == segs[o + j];
    FallbackChapterLines(bio);
    FallbackQuoteLines(bio);
  }

  /** With single-line fields, splitting the fallback text gives back exactly
      its lines, so the builder sees one line per fallback line. */
  lemma FallbackLines(bio: BiographyDocument)
    requires SingleLineFields(bio)
    ensures SplitLines(FallbackContent(bio)) == FallbackSegments(bio)
  {
    var c := bio.customization;
    var h := HeaderLines(c);
    var p := PersonalBlock(bio.personalInformation);
    var cb := ChapterBlocks(bio);
    var q := QuoteTail(c);
    HeaderFacts(bio);
    ChapterBlocksLines(bio);
    assert '\n' !in MissingValue;
    assert NoLineBreaks(p);
    assert NoLineBreaks(q);
    NoLineBreaksConcat(h, p);
    NoLineBreaksConcat(h + p, cb);
    NoLineBreaksConcat(h + p + cb, q);
    SplitJoin(FallbackSegments(bio));
  }

  /** No line of the personal block is a title. */
  lemma PersonalNotTitles(pi: PersonalInformation)
    ensures NoTitleLines(PersonalBlock(pi))
  {
    var p := PersonalBlock(pi);
    forall j | 0 <= j < |p| ensures !StartsWith(p[j], Heading1Marker) {
      NotTitleByChars(p[j]);
    }
  }

  /** No line of the quote tail is a title. */
  lemma QuoteNotTitles(c: Customization)
    ensures NoTitleLines(QuoteTail(c))
  {
    var q := QuoteTail(c);
    forall j | 0 <= j < |q| ensures !StartsWith(q[j], Heading1Marker) {
      NotTitleByChars(q[j]);
    }
  }

  /** Only the first fallback line is a title line when no summary starts
      with `# `. */
  lemma FallbackTitleLines(bio: BiographyDocument)
    requires ChaptersNotTitles(bio)
    ensures NoTitleLines(FallbackSegments(bio)[1..])
  {
    var c := bio.customization;
    var h := HeaderLines(c);
    var p := PersonalBlock(bio.personalInformation);
    var cb := ChapterBlocks(bio);
    var q := QuoteTail(c);
    HeaderFacts(bio);
    ChapterBlocksLines(bio);
    PersonalNotTitles(bio.personalInformation);
    QuoteNotTitles(c);
    NoTitleLinesConcat(h[1..], p);
    NoTitleLinesConcat(h[1..] + p, cb);
    NoTitleLinesConcat(h[1..] + p + cb, q);
    assert FallbackSegments(bio)[1..] == h[1..] + p + cb + q;
  }

  /** A `# ` line becomes a title-style paragraph of the text after it. */
  lemma TitleParagraph(text: string)
    ensures LineParagraph(Heading1Marker + text) == Paragraph(Some(text), Some(TitleStyle), [], None)
  {
    var line := Heading1Marker + text;
    MarkerChars(line);
    assert line[2..] == text;
  }

  /** A `### ` line becomes a level-3 heading paragraph of the text after it. */
  lemma Heading3Paragraph(text: string)
    ensures LineParagraph(Heading3Marker + text) == Paragraph(Some(text), Some(Heading3Style), [], None)
  {
    var line := Heading3Marker + text;
    MarkerChars(line);
    assert line[4..] == text;
  }

  /** A line becomes a title-style paragraph exactly when it starts with
      `# `. */
  lemma TitleStyleIffTitleMarker(line: string)
    ensures LineParagraph(line).heading == Some(TitleStyle) <==> StartsWith(line, Heading1Marker)
  {
    var c := Classify(line);
    assert c in {Blank, Heading1, Markup.Heading2, Markup.Heading3, Quote, Plain};
  }

  /** With single-line fields the fallback renders one paragraph per
      fallback line, in order. */
  lemma FallbackParagraphLines(bio: BiographyDocument)
    requires SingleLineFields(bio)
    ensures BuildParagraphs(FallbackContent(bio)) == RenderLines(FallbackSegments(bio))
  {
    FallbackLines(bio);
  }

  /** The rendered fallback lines open with a title-style paragraph
      holding the record's title, or `Autobiography` when it is empty. */
  lemma FallbackTitleParagraph(bio: BiographyDocument)
    ensures var ps := RenderLines(FallbackSegments(bio));
            |ps| > 0 && ps[0] == Paragraph(Some(Or(bio.customization.title, "Autobiography")), Some(TitleStyle), [], None)
  {
    HeaderFacts(bio);
    assert FallbackSegments(bio)[0] == HeaderLines(bio.customization)[0];
    TitleParagraph(Or(bio.customization.title, DefaultTitle));
  }

  /** In the rendered fallback lines the six chapter headings are level-3
      heading paragraphs in display order, three paragraphs apart, after the
      header and the seven-line personal block. */
  lemma FallbackChapterHeadings(bio: BiographyDocument)
    ensures var ps := RenderLines(FallbackSegments(bio));
            var o := |HeaderLines(bio.customization)|;
            forall i :: 0 <= i < 6 ==>
              && o + 7 + 3 * i < |ps|
              && ps[o + 7 + 3 * i] == Paragraph(Some(SectionTitle(SectionOrder[i])), Some(Heading3Style), [], None)
  {
    FallbackChapterLines(bio);
    HeadingParagraphsAt(FallbackSegments(bio), |HeaderLines(bio.customization)|);
  }

  /** Lines that are `### ` headings of the chapter titles render as
      level-3 heading paragraphs of those titles. */
  lemma HeadingParagraphsAt(segs: seq<string>, o: nat)
    requires o + 24 <= |segs|
    requires forall i :: 0 <= i < 6 ==> segs[o + 7 + 3 * i] == "### " + SectionTitle(SectionOrder[i])
    ensures forall i :: 0 <= i < 6 ==>
              RenderLines(segs)[o + 7 + 3 * i] == Paragraph(Some(SectionTitle(SectionOrder[i])), Some(Heading3Style), [], None)
  {
    forall i | 0 <= i < 6
      ensures RenderLines(segs)[o + 7 + 3 * i] == Paragraph(Some(SectionTitle(SectionOrder[i])), Some(Heading3Style), [], None)
    {
      Heading3Paragraph(SectionTitle(SectionOrder[i]));
    }
  }

  /** When no summary starts with `# `, the rendered fallback lines hold
      exactly one title-style paragraph: the first. */
  lemma FallbackSingleTitle(bio: BiographyDocument)
    requires ChaptersNotTitles(bio)
    ensures var ps := RenderLines(FallbackSegments(bio));
            forall j :: 0 < j < |ps| ==> ps[j].heading != Some(TitleStyle)
  {
    var segs := FallbackSegments(bio);
    var ps := RenderLines(segs);
    FallbackTitleLines(bio);
    forall j | 0 < j < |ps| ensures ps[j].heading != Some(TitleStyle) {
      assert segs[1..][j - 1] == segs[j];
      TitleStyleIffTitleMarker(segs[j]);
    }
  }

  /** The download name: the title (or `autobiography` when it is empty)
      with whitespace runs turned into `_`, lower-cased, plus `.docx`. */
  function Filename(title: string): (name: string)
    ensures |name| > 5 && name[|name| - 5..] == ".docx"
    ensures NoWhitespace(name[..|name| - 5])
    ensures title != "" ==> name[..|name| - 5] == FilenameBase(title)
  {
    FilenameBase(Or(title, "autobiography")) + ".docx"
  }

  /** An untitled record downloads as `autobiography.docx`. */
  lemma UntitledFilename()
    ensures Filename("") == "autobiography" + ".docx"
  {
    DefaultNameBase();
  }

  /** The route's answer. */
  datatype DocxResponse =
    | DocxUnauthorized
    | DocxFailed
    | DocxFile(paragraphs: seq<Paragraph>, contentType: string, filename: string)

  /** `POST /api/export/docx`: refused without a signed-in user; fails when
      the body is `null`, since reading its `story` throws; otherwise the
      chosen content is rendered paragraph by paragraph and named after the
      stored title (never the request's title). */
  function ExportDocx(sessionUserId: Option<string>, bio: BiographyDocument, body: RequestBody): (r: DocxResponse)
    ensures !Truthy(sessionUserId) <==> r.DocxUnauthorized?
    ensures r.DocxFailed? <==> Truthy(sessionUserId) && body.NullBody?
    ensures r.DocxFile? ==>
              && body.KeyedBody?
              && r.contentType == DocxContentType
              && r.filename == Filename(bio.customization.title)
              && r.paragraphs == BuildParagraphs(SelectContent(body.payload, bio.storyDraft, FallbackContent(bio)))
              && |r.paragraphs| == Count(SelectContent(body.payload, bio.storyDraft, FallbackContent(bio)), '\n') + 1
  {
    if !Truthy(sessionUserId) then
      DocxUnauthorized
    else
      match body
      case NullBody => DocxFailed
      case KeyedBody(payload) =>
        var content := SelectContent(payload, bio.storyDraft, FallbackContent(bio));
        DocxFile(BuildParagraphs(content), DocxContentType, Filename(bio.customization.title))
  }
}
