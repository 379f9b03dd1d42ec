# Autobiography data builder — a Dafny model of its core

The autobiography data builder is a Next.js application. A user keeps one
biography record:
- personal details;
- six life chapters, each a summary;
- a timeline of events;
- a writing style;
- cover customisation: title, subtitle and favourite quote;
- a share flag and public id;
- an optional story draft.

From that record the application does the following:
- builds a prompt for a text generator and stores the trimmed answer as the draft;
- exports the draft, or a markup fallback built from the record, as a PDF or a Word document;
- lets the user edit the record in a seven-step form and a timeline editor;
- lets the user share it under a public link.

It also registers users and lists them for administrators.

This project models that core as pure Dafny functions over immutable
datatypes, and proves what each operation promises.

| file | module | what it holds |
|---|---|---|
| wrappers.dfy | Wrappers | `Option`; `JsonField`, a request field that is absent, `null`, a string or some other JSON value; JavaScript truthiness of an optional string |
| text.dfy | Text | the JavaScript string operations the code relies on: see the list below |
| biography.dfy | Biography | the record (`types/biography.ts`), the chapter order and the chapter titles |
| markup.dfy | Markup | the line markers `# `, `## `, `### `, `> `, `**` and the facts about how they exclude each other |
| export_request.dfy | ExportRequest | the body of an export request and the choice between the posted story, the stored draft and the fallback |
| fallback_parts.dfy | FallbackParts | the pieces both export fallbacks share: the title and subtitle lines and the six chapter blocks |
| docx_export.dfy | DocxExport | the word-processor route: fallback text, line-to-paragraph mapping, filename, response |
| pdf_export.dfy | PdfExport | the PDF route: fallback text with `**Label:**` markup and the timeline, line-to-drawing-operation mapping, title resolution, filename, response |
| export_compare.dfy | ExportCompare | how the two routes agree and where they differ |
| prompt.dfy | Prompt | `buildPrompt` and the generation route |
| timeline_editor.dfy | TimelineEditor | the timeline editor's list operations and the save-time clean-up |
| sections_wizard.dfy | SectionsWizard | the seven-step form: validation, step cursor, save request |
| export_panel.dfy | ExportPanel | the dashboard's download names, export bodies, share toggle and share link |
| register.dfy | Register | the registration route |
| admin_users.dfy | AdminUsers | the administrators' user listing |

The JavaScript string operations modelled in `Text` are:
- `trim`, over the ECMAScript white-space and line-terminator set;
- ASCII `toLowerCase` and `toUpperCase`;
- `split("\n")` and `join("\n")`;
- `replace(pattern, "")` for the first occurrence;
- `replace(/\*\*/g, "")`;
- `replace(/\s+/g, "_")`;
- decimal numbering;
- UTF-16 length.

Everything the code reads from outside becomes a parameter:
- the session;
- the generator's answer;
- the password hash;
- fresh ids;
- the clock;
- the page origin.

The PDF and Word libraries are modelled by the sequence of paragraphs or
drawing operations the code asks them for.

Behaviour of the code worth noting:
- A title such as `"  My   Life  "` gives the file name `_my_life_.pdf`. Leading and trailing whitespace runs become underscores as well (`Text.FilenameBaseKeepsOuterRuns`).
- An empty title gives different names on the two sides:
  - The PDF route names the file `.pdf` and centres an empty title. Its `?? "Autobiography"` default is never reached, because the stored title is always a string.
  - The word-processor route and the browser both fall back to `autobiography`.
- Only the PDF fallback lists the timeline and writes `**Name:**` label markup. The PDF renderer strips that markup: it draws such a line as size-12 text with every `**` removed.
- A JSON `null` export body makes both export routes answer 500, because reading its `story` throws. Any other body that is not an object reads as having neither key.
- The word-processor fallback adds a blank line of its own before the quote. The PDF fallback does not, but there the line before the quote is already blank: the one that closes the chapters, or the one that closes the last event (`PdfExport.FallbackTail`).
- The PDF timeline separator is the three characters `â€”`, exactly as the source file spells it, not an em dash.
- Nothing stops a chapter summary that starts with `# ` from becoming a second title paragraph. So "only one title" is proved only for records whose summaries do not start with `# ` (`DocxExport.FallbackSingleTitle`).
- Removing an event from a list that holds two events with the same id empties the list (`TimelineEditor.RemoveDuplicateIdEmpties`). With unique ids the list never becomes empty.
- "Quick save" sends the form without validating it; only "Next" validates.
- The prompt's voice line for a style name outside the four styles carries the text `undefined`.

## Model

| member | source | states |
|---|---|---|
| Biography.SectionOrderComplete | autobiography-data-builder/src/types/biography.ts:27-52 | the six chapters of the record are listed once each, in one fixed order |
| Markup.MarkerChars | autobiography-data-builder/src/app/api/export/docx/route.ts:17-47 | each line marker test is exactly a test on the line's first characters |
| Markup.BlankCarriesNoMarker | autobiography-data-builder/src/app/api/export/docx/route.ts:12-47 | a line that trims to nothing starts with none of the markers, so the blank test can come first without hiding any marker |
| Markup.MarkedLineNotBlank | autobiography-data-builder/src/app/api/export/pdf/route.ts:66-80 | a line with a marker is never blank, so the PDF renderer's late blank test never shadows a marker |
| Text.CaseMappingSpec | autobiography-data-builder/src/app/api/auth/register/route.ts:9 | lower-casing keeps the length, changes exactly the ASCII capitals and leaves none; upper-casing does the same for the small letters |
| Text.ToLower | autobiography-data-builder/src/app/api/auth/register/route.ts:9 | lower-casing is stated by `Text.CaseMappingSpec` and `Text.LowerCasedFacts` |
| Text.ToUpper | autobiography-data-builder/src/app/api/generate/route.ts:25 | upper-casing is stated by `Text.CaseMappingSpec` and `Text.CaseRoundTrip` |
| Text.CaseRoundTrip | autobiography-data-builder/src/app/api/generate/route.ts:25 | lower-casing after upper-casing is plain lower-casing, and the other way round |
| Text.TrimStart | autobiography-data-builder/src/app/api/generate/route.ts:81 | the start-trimmed text is a suffix of the input, everything dropped is white space, and it does not start with white space |
| Text.TrimEnd | autobiography-data-builder/src/app/api/generate/route.ts:81 | the end-trimmed text is a prefix of the input, everything dropped is white space, and it does not end with white space |
| Text.Trim | autobiography-data-builder/src/app/api/generate/route.ts:81 | the trimmed text occurs in the input with only white space before and after it, has no white space at either end, and is empty exactly when the input is all white space |
| Text.TrimUnique | autobiography-data-builder/src/app/api/generate/route.ts:81 | a text that occurs in the input with only white space around it and has no white space at either end is the trimmed input, so the trimmed text is determined by those two facts |
| Text.TrimEmptyIffWhitespace | autobiography-data-builder/src/app/api/export/docx/route.ts:12 | a line trims to the empty string exactly when all of its characters are white space |
| Text.TrimIdempotent | autobiography-data-builder/src/app/api/generate/route.ts:81 | trimming twice gives what trimming once gives |
| Text.TrimmedFixed | autobiography-data-builder/src/components/timeline/timeline-manager.tsx:57-60 | a trimmed string has no white space at either end, and such a string is left unchanged by `trim` |
| Text.LowerCasedFacts | autobiography-data-builder/src/app/api/auth/register/route.ts:9 | lower-casing leaves no capital letters and leaves a lower-case string alone |
| Text.TrimKeepsLowerCased | autobiography-data-builder/src/app/api/auth/register/route.ts:9 | trimming a lower-case string keeps it lower-case |
| Text.IndexOf | autobiography-data-builder/src/app/api/export/docx/route.ts:20 | the position `replace` acts on is the first occurrence of the pattern, or there is none |
| Text.ReplaceFirstAtStart | autobiography-data-builder/src/app/api/export/docx/route.ts:17-45 | on a line starting with the marker, replacing the first occurrence strips exactly the marker |
| Text.ReplaceFirst | autobiography-data-builder/src/app/api/export/docx/route.ts:20 | replacing the first occurrence is stated by `Text.ReplaceFirstAtStart`: on a line that starts with the pattern exactly the pattern is cut off |
| Text.RemoveDoubleStars | autobiography-data-builder/src/app/api/export/pdf/route.ts:74 | the global removal of `**` is stated by `Text.RemoveDoubleStarsSpec` (no `**` is left, the text never grows, the characters other than `*` stay in order), `Text.NoPairUnchanged` (a line without `**` is kept, lone `*` included) and `Text.StarRun` (a run of k asterisks keeps k mod 2 of them, so `***` leaves one) |
| Text.RemoveDoubleStarsSpec | autobiography-data-builder/src/app/api/export/pdf/route.ts:74 | removing the `**` pairs leaves no `**`, never lengthens the line, keeps the characters other than `*` in order, and keeps a first character other than `*` first |
| Text.NoPairUnchanged | autobiography-data-builder/src/app/api/export/pdf/route.ts:74 | a line holding no `**` comes back unchanged, so a lone `*` (as in `*a*`) survives |
| Text.StarRun | autobiography-data-builder/src/app/api/export/pdf/route.ts:74 | a run of k asterisks before a non-`*` character or the end keeps exactly k mod 2 of them, the pairs being removed left to right without overlap |
| Text.UnderscoreWhitespaceRuns | autobiography-data-builder/src/app/api/export/docx/route.ts:133 | replacing whitespace runs by `_` leaves no white space, is empty only for the empty string and changes nothing when there is no white space; its value on every input follows from `Text.UnderscoreRunPrefix` and `Text.UnderscoreWordPrefix` |
| Text.UnderscoreRunPrefix | autobiography-data-builder/src/app/api/export/docx/route.ts:133 | a whitespace run at the front becomes exactly one `_` before the rest's replacement |
| Text.UnderscoreCopies | autobiography-data-builder/src/app/api/export/docx/route.ts:133 | a first character that is not white space is copied before the rest's replacement |
| Text.FilenameBase | autobiography-data-builder/src/app/api/export/pdf/route.ts:105 | the filename base has no white space, is no longer than the title, is empty only for an empty title, and is the lower-cased title when the title has no white space |
| Text.FilenameBaseWord | autobiography-data-builder/src/app/api/export/pdf/route.ts:105 | a leading word without white space enters the filename base lower-cased |
| Text.FilenameBaseRun | autobiography-data-builder/src/app/api/export/pdf/route.ts:105 | a leading whitespace run enters the filename base as one `_`; with `Text.FilenameBaseWord` this fixes the base of every title |
| Text.ToLowerConcat | autobiography-data-builder/src/app/api/export/pdf/route.ts:105 | lower-casing a concatenation lower-cases each part |
| Text.UnderscoreWordPrefix | autobiography-data-builder/src/components/dashboard/export-panel.tsx:45 | a leading word without white space is copied unchanged into the filename base |
| Text.UnderscoreTrailingRun | autobiography-data-builder/src/components/dashboard/export-panel.tsx:45 | a trailing whitespace run becomes a trailing `_` |
| Text.FilenameBaseKeepsOuterRuns | autobiography-data-builder/src/app/api/export/docx/route.ts:132-134 | a title starting or ending with white space gives a filename base starting or ending with `_` |
| Text.DefaultNameBase | autobiography-data-builder/src/app/api/export/docx/route.ts:132-134 | the default name `autobiography` is its own filename base |
| Text.SplitLines | autobiography-data-builder/src/app/api/export/docx/route.ts:9 | `split("\n")` yields one more piece than there are line breaks, no piece holds a break, and joining the pieces restores the text |
| Text.JoinLines | autobiography-data-builder/src/app/api/export/docx/route.ts:107 | joining with line breaks is stated by `Text.JoinLinesConcat` and undone by splitting (`Text.SplitJoin`) |
| Text.SplitJoin | autobiography-data-builder/src/app/api/export/pdf/route.ts:52 | splitting the joined fallback lines gives back the lines when none holds a break |
| Text.JoinLinesConcat | autobiography-data-builder/src/app/api/export/docx/route.ts:107 | joining two non-empty line lists is joining each and putting one break between them |
| Text.JoinLinesFlatten | autobiography-data-builder/src/app/api/generate/route.ts:47-55 | a line that is itself a joined list can be spliced into the surrounding list |
| Text.NatToString | autobiography-data-builder/src/app/api/generate/route.ts:51 | the decimal numeral of an event's number is all digits, has no leading zero except `0` itself, and reads back as that number |
| Text.LeadingDigits | autobiography-data-builder/src/app/api/generate/route.ts:51 | the leading digits of a line are a prefix, all digits, and maximal |
| Text.Utf16Length | autobiography-data-builder/src/app/api/auth/register/route.ts:16 | the password length in UTF-16 code units is the character count plus one for each character outside the basic plane, so between one and two per character |
| ExportRequest.StoryOverride | autobiography-data-builder/src/app/api/export/docx/route.ts:119 | a posted story counts exactly when it is a non-empty string |
| ExportRequest.SelectContent | autobiography-data-builder/src/app/api/export/pdf/route.ts:100-103 | the content is the posted story, else the stored draft (even an empty one), else the fallback |
| FallbackParts.Chapters | autobiography-data-builder/src/app/api/export/docx/route.ts:86-102 | there are six chapters in the record's order, each a `### ` title and the summary or `No content provided.` |
| FallbackParts.BlankSeparatedShape | autobiography-data-builder/src/app/api/export/docx/route.ts:86-102 | chapter `i` has its heading at line `3i`, its text at `3i+1` and a blank line at `3i+2` except after the last |
| FallbackParts.BlankSeparatedLines | autobiography-data-builder/src/app/api/export/pdf/route.ts:20-37 | a property of the blank line and of every heading and text holds for every chapter-block line |
| FallbackParts.ChapterBlocksLines | autobiography-data-builder/src/app/api/export/pdf/route.ts:20-37 | chapter blocks have no line breaks when the summaries have none, and no title line when no summary starts with `# ` |
| FallbackParts.HeaderFacts | autobiography-data-builder/src/app/api/export/docx/route.ts:75-78 | the header is the title line, plus a subtitle line exactly when the subtitle is non-empty |
| FallbackParts.ChapterLineFacts | autobiography-data-builder/src/app/api/export/docx/route.ts:86-102 | chapter headings are never title lines or multi-line; chapter texts inherit both from the summaries |
| FallbackParts.TitleSingleLine | autobiography-data-builder/src/types/biography.ts:27-52 | no chapter title holds a line break |
| DocxExport.Classify | autobiography-data-builder/src/app/api/export/docx/route.ts:12-67 | each line falls in the class its own prefix names: blank, title, heading, subheading, quote or plain; a `**` line is plain |
| DocxExport.LineParagraph | autobiography-data-builder/src/app/api/export/docx/route.ts:12-67 | each class gives its paragraph: spaced empty text, title, heading 2 or heading 3 with the marker stripped, an italic quote run, or a plain run |
| DocxExport.BuildParagraphs | autobiography-data-builder/src/app/api/export/docx/route.ts:7-71 | one paragraph per line of the content, in order |
| DocxExport.RenderLines | autobiography-data-builder/src/app/api/export/docx/route.ts:7-71 | one paragraph per line, the `i`-th rendered from the `i`-th line |
| DocxExport.FallbackSegments | autobiography-data-builder/src/app/api/export/docx/route.ts:73-108 | the fallback lines are stated by `DocxExport.FallbackShape`: header, personal block with `N/A` for empty fields, the six chapters and the optional quote |
| DocxExport.FallbackContent | autobiography-data-builder/src/app/api/export/docx/route.ts:73-108 | the fallback text is stated by `DocxExport.FallbackLines`: it splits back into the fallback lines when no field holds a line break |
| DocxExport.FallbackShape | autobiography-data-builder/src/app/api/export/docx/route.ts:73-108 | line by line, the fallback is the header, the personal block with `N/A` for empty fields, the six chapters and the optional quote |
| DocxExport.FallbackLines | autobiography-data-builder/src/app/api/export/docx/route.ts:73-108 | splitting the joined fallback gives back its lines when no field holds a line break |
| DocxExport.FallbackTitleLines | autobiography-data-builder/src/app/api/export/docx/route.ts:73-108 | after the first line no fallback line is a title line, provided no summary starts with `# ` |
| DocxExport.TitleStyleIffTitleMarker | autobiography-data-builder/src/app/api/export/docx/route.ts:17-25 | a paragraph gets the title style exactly when its line starts with `# ` |
| DocxExport.FallbackParagraphLines | autobiography-data-builder/src/app/api/export/docx/route.ts:7-108 | rendering the fallback text gives one paragraph per fallback line |
| DocxExport.FallbackTitleParagraph | autobiography-data-builder/src/app/api/export/docx/route.ts:75 | the first paragraph is the title, or `Autobiography` when the title is empty |
| DocxExport.FallbackChapterHeadings | autobiography-data-builder/src/app/api/export/docx/route.ts:86-102 | the six chapter titles become heading-3 paragraphs at their fixed positions |
| DocxExport.FallbackSingleTitle | autobiography-data-builder/src/app/api/export/docx/route.ts:73-108 | only the first paragraph of the fallback has the title style, provided no summary starts with `# ` |
| DocxExport.Filename | autobiography-data-builder/src/app/api/export/docx/route.ts:132-134 | the name ends in `.docx`, its base has no white space and is the title's filename base |
| DocxExport.UntitledFilename | autobiography-data-builder/src/app/api/export/docx/route.ts:132-134 | an empty title gives `autobiography.docx` |
| DocxExport.ExportDocx | autobiography-data-builder/src/app/api/export/docx/route.ts:110-147 | no session user id means 401; a `null` body means 500; otherwise the Word document with the right content type and name whose paragraphs are the chosen content's lines rendered in order |
| PdfExport.Classify | autobiography-data-builder/src/app/api/export/pdf/route.ts:66-84 | each line falls in the class its own prefix names, a `**` prefix included |
| PdfExport.LineOps | autobiography-data-builder/src/app/api/export/pdf/route.ts:66-84 | each class gives its drawing operations: size 22, 16 or 14 headings, size-12 text with every `**` removed for a `**` line, grey centred quote followed by black ink, a move down for blank, size-12 text otherwise |
| PdfExport.RenderPdf | autobiography-data-builder/src/app/api/export/pdf/route.ts:55-89 | a centred size-20 title and then one step per line of the content, in order |
| PdfExport.TitleOps | autobiography-data-builder/src/app/api/export/pdf/route.ts:64 | the title block draws exactly one text, the title, and sets no fill colour |
| PdfExport.LineSteps | autobiography-data-builder/src/app/api/export/pdf/route.ts:65-85 | one step per line, the `i`-th drawn from the `i`-th line |
| PdfExport.OneTextPerLine | autobiography-data-builder/src/app/api/export/pdf/route.ts:66-84 | a blank line draws no text and any other line draws exactly one, always leaving black ink behind |
| PdfExport.HeadingRoundTrip | autobiography-data-builder/src/app/api/export/pdf/route.ts:67-79 | a heading or quote line built from a text draws exactly that text |
| PdfExport.LabelLineDrawn | autobiography-data-builder/src/app/api/export/pdf/route.ts:13-19 | a `**Key:**` label line is drawn as size-12 text reading `Key: value`, every `**` removed |
| PdfExport.EventLines | autobiography-data-builder/src/app/api/export/pdf/route.ts:39-47 | each event gives date-separator-title, the description, a notes line when there are notes, and a blank line |
| PdfExport.EventsLines | autobiography-data-builder/src/app/api/export/pdf/route.ts:38-48 | the events give three or four lines each, and a non-empty list ends with the blank line that closes its last event |
| PdfExport.TimelineBlock | autobiography-data-builder/src/app/api/export/pdf/route.ts:38-48 | the timeline block is empty exactly when there are no events; otherwise it is the heading and then the events' lines, ending with a blank line |
| PdfExport.EventsLinesConcat | autobiography-data-builder/src/app/api/export/pdf/route.ts:39-47 | the lines of two event lists are the lines of each, in order |
| PdfExport.FallbackPersonalLines | autobiography-data-builder/src/app/api/export/pdf/route.ts:13-19 | the personal block sits after the header, with `**Key:**` label markup and `N/A` for empty fields |
| PdfExport.PersonalBlockSteps | autobiography-data-builder/src/app/api/export/pdf/route.ts:13-19 | each of the four labelled personal lines is drawn as size-12 text reading `Key: value` with every `**` removed and `N/A` for an empty value |
| PdfExport.FallbackChapterLines | autobiography-data-builder/src/app/api/export/pdf/route.ts:20-37 | the six chapters sit at fixed positions after the personal block |
| PdfExport.FallbackTail | autobiography-data-builder/src/app/api/export/pdf/route.ts:37-51 | the timeline block and then the quote line end the fallback; the quote adds no blank line of its own, yet the line before it is always blank: the one closing the chapters or the one closing the last event |
| PdfExport.FallbackSegments | autobiography-data-builder/src/app/api/export/pdf/route.ts:7-53 | the fallback lines are stated by `PdfExport.FallbackPersonalLines`, `PdfExport.FallbackChapterLines` and `PdfExport.FallbackTail`: header, labelled personal block, six chapters each followed by a blank line, timeline, quote |
| PdfExport.FallbackContent | autobiography-data-builder/src/app/api/export/pdf/route.ts:7-53 | the fallback text is stated by `PdfExport.FallbackLines`: it splits back into the fallback lines when no field holds a line break |
| PdfExport.FallbackLines | autobiography-data-builder/src/app/api/export/pdf/route.ts:7-53 | splitting the joined fallback gives back its lines when no field holds a line break |
| PdfExport.FallbackRendering | autobiography-data-builder/src/app/api/export/pdf/route.ts:55-89 | rendering the fallback is the title block and then one step per fallback line |
| PdfExport.FallbackTitleStep | autobiography-data-builder/src/app/api/export/pdf/route.ts:9 | the first step draws the record's title, or `Autobiography`, at size 22 |
| PdfExport.FallbackPersonalSteps | autobiography-data-builder/src/app/api/export/pdf/route.ts:13-19 | right after the header, the four personal lines are drawn as size-12 text reading `Key: value` with every `**` removed and `N/A` for an empty value |
| PdfExport.FallbackQuoteStep | autobiography-data-builder/src/app/api/export/pdf/route.ts:49-51 | a favourite quote is drawn last, grey and centred |
| PdfExport.ResolveTitle | autobiography-data-builder/src/app/api/export/pdf/route.ts:101 | a posted string title wins, a missing or null one falls back to the stored title, and any other value fails |
| PdfExport.Filename | autobiography-data-builder/src/app/api/export/pdf/route.ts:105 | the name ends in `.pdf` and its base is the title's filename base |
| PdfExport.EmptyTitleFilename | autobiography-data-builder/src/app/api/export/pdf/route.ts:101-105 | an empty title gives the name `.pdf` |
| PdfExport.ExportPdf | autobiography-data-builder/src/app/api/export/pdf/route.ts:91-118 | 401 without a session user id, 500 for a `null` body or a title that is not a string, otherwise a PDF named from the resolved title whose drawing is the chosen content rendered under that title, one step per content line |
| ExportCompare.ClassifiersAgree | autobiography-data-builder/src/app/api/export/pdf/route.ts:66-84 | both renderers classify every line alike except `**` lines, which the PDF draws as size-12 text with every `**` removed and the Word document renders as a plain run |
| ExportCompare.FilenamesAgree | autobiography-data-builder/src/app/api/export/docx/route.ts:132-134 | both routes give the same filename base for a non-empty title; an empty one gives `autobiography.docx` but `.pdf` |
| Prompt.StyleFromName | autobiography-data-builder/src/app/api/generate/route.ts:11-20 | a name denotes a style exactly when it is that style's name |
| Prompt.StyleGuidance | autobiography-data-builder/src/app/api/generate/route.ts:11-20 | the four guidance sentences are stated by `Prompt.Guidance` and told apart by `Prompt.VoiceLineIdentifiesStyle` |
| Prompt.Guidance | autobiography-data-builder/src/app/api/generate/route.ts:11-25 | the guidance is the style's sentence for the four style names and `undefined` for any other name |
| Prompt.VoiceLineIdentifiesStyle | autobiography-data-builder/src/app/api/generate/route.ts:25 | the voice lines of two styles are equal exactly when the styles are |
| Prompt.VoiceLineOfStyle | autobiography-data-builder/src/app/api/generate/route.ts:25 | a style's voice line is its name in capitals and its guidance sentence |
| Prompt.RequestedStyle | autobiography-data-builder/src/app/api/generate/route.ts:73 | a missing or null style means `emotional`, a string is taken as given, anything else fails |
| Prompt.DefaultStyleIsEmotional | autobiography-data-builder/src/app/api/generate/route.ts:73 | without a style the prompt asks for the emotional voice |
| Prompt.ValueLineReadsBack | autobiography-data-builder/src/app/api/generate/route.ts:34-45 | after `key: ` a detail line holds the value, or the placeholder when the value is empty |
| Prompt.PersonalDetailLines | autobiography-data-builder/src/app/api/generate/route.ts:34-38 | the four personal lines with `Unknown` or `No background provided` for empty values |
| Prompt.SectionLines | autobiography-data-builder/src/app/api/generate/route.ts:40-45 | one line per chapter, in order, with `No content` for an empty summary |
| Prompt.NotesSuffix | autobiography-data-builder/src/app/api/generate/route.ts:51-53 | the notes clause is empty exactly when there are no notes |
| Prompt.EventPromptLines | autobiography-data-builder/src/app/api/generate/route.ts:47-55 | one line per event, the `i`-th numbered `i+1` |
| Prompt.EventNumbering | autobiography-data-builder/src/app/api/generate/route.ts:50-51 | each event line starts with its number and a dot, and its leading digits read back as that number |
| Prompt.TimelinePlaceholder | autobiography-data-builder/src/app/api/generate/route.ts:47-55 | the timeline text is `No events provided` exactly when there are no events |
| Prompt.TimelineSplit | autobiography-data-builder/src/app/api/generate/route.ts:47-55 | the timeline text splits back into the numbered event lines when no event field holds a line break |
| Prompt.PromptShape | autobiography-data-builder/src/app/api/generate/route.ts:10-58 | the prompt's 29 lines: intro, voice line, structure, personal details, six chapters, the timeline and the closing |
| Prompt.PromptFraming | autobiography-data-builder/src/app/api/generate/route.ts:22-57 | the prompt starts with a line break and ends with the closing instruction |
| Prompt.PromptLines | autobiography-data-builder/src/app/api/generate/route.ts:10-58 | the prompt is the head lines, the timeline's own lines and the closing, joined |
| Prompt.BuildPrompt | autobiography-data-builder/src/app/api/generate/route.ts:10-58 | the prompt text is stated by `Prompt.PromptShape`, `Prompt.PromptFraming` and `Prompt.PromptLines` |
| Prompt.Generate | autobiography-data-builder/src/app/api/generate/route.ts:60-92 | 500 without an API key, 401 without a session user, a story exactly when the body and style are readable and the generator answers; the story is the trimmed answer to the prompt for that style |
| TimelineEditor.EmptyEvent | autobiography-data-builder/src/components/timeline/timeline-manager.tsx:17-24 | a new event has the fresh id and empty fields |
| TimelineEditor.InitialEvents | autobiography-data-builder/src/components/timeline/timeline-manager.tsx:27-35 | the editor starts from the stored events, or one empty event when there are none |
| TimelineEditor.SetFieldFrame | autobiography-data-builder/src/components/timeline/timeline-manager.tsx:37-39 | setting a field changes that field and no other |
| TimelineEditor.UpdateEvent | autobiography-data-builder/src/components/timeline/timeline-manager.tsx:37-39 | an edit changes the field of the events with that id and leaves the others as they were |
| TimelineEditor.AddEvent | autobiography-data-builder/src/components/timeline/timeline-manager.tsx:41-43 | adding keeps the list and appends one empty event |
| TimelineEditor.WithoutId | autobiography-data-builder/src/components/timeline/timeline-manager.tsx:46 | filtering keeps exactly the events with another id |
| TimelineEditor.WithoutIdCounts | autobiography-data-builder/src/components/timeline/timeline-manager.tsx:46 | each event with another id is kept as often as it occurs, and none carrying the id is kept |
| TimelineEditor.WithoutIdConcat | autobiography-data-builder/src/components/timeline/timeline-manager.tsx:46 | filtering distributes over concatenation, so the kept events stay in their original order |
| TimelineEditor.RemoveEvent | autobiography-data-builder/src/components/timeline/timeline-manager.tsx:45-47 | a one-event list is kept; otherwise the events with that id go |
| TimelineEditor.RemoveKeepsList | autobiography-data-builder/src/components/timeline/timeline-manager.tsx:45-47 | with unique ids, removing never empties the list and keeps the ids unique |
| TimelineEditor.RemoveDuplicateIdEmpties | autobiography-data-builder/src/components/timeline/timeline-manager.tsx:45-47 | two events sharing an id are both removed, emptying the list |
| TimelineEditor.AddKeepsList | autobiography-data-builder/src/components/timeline/timeline-manager.tsx:41-43 | adding with a fresh id keeps the ids unique and adds exactly that id |
| TimelineEditor.UpdateKeepsList | autobiography-data-builder/src/components/timeline/timeline-manager.tsx:37-39 | editing a field other than the id keeps every id in place |
| TimelineEditor.EditsKeepList | autobiography-data-builder/src/components/timeline/timeline-manager.tsx:37-47 | any session of edits, adds with fresh ids and removes leaves a non-empty list with unique ids |
| TimelineEditor.InitialKeepsList | autobiography-data-builder/src/components/timeline/timeline-manager.tsx:27-29 | the initial list has unique ids when the stored one does |
| TimelineEditor.Clean | autobiography-data-builder/src/components/timeline/timeline-manager.tsx:55-61 | cleaning trims title, description, notes and image and keeps id and date; missing notes or image become empty |
| TimelineEditor.Keep | autobiography-data-builder/src/components/timeline/timeline-manager.tsx:54 | which events are saved is stated by `TimelineEditor.SanitizeSingle`: exactly those with a non-empty trimmed title and a date |
| TimelineEditor.Sanitize | autobiography-data-builder/src/components/timeline/timeline-manager.tsx:53-61 | the saved list is never longer; `TimelineEditor.SanitizeSingle`, `TimelineEditor.SanitizeConcat`, `TimelineEditor.SanitizeClean` and `TimelineEditor.SanitizeIdempotent` state which events it keeps, in what order and in what form |
| TimelineEditor.CleanIsClean | autobiography-data-builder/src/components/timeline/timeline-manager.tsx:54-61 | a kept event is clean after cleaning and still kept |
| TimelineEditor.CleanFixesClean | autobiography-data-builder/src/components/timeline/timeline-manager.tsx:54-61 | cleaning leaves a clean event alone |
| TimelineEditor.SanitizeClean | autobiography-data-builder/src/components/timeline/timeline-manager.tsx:53-61 | every event that is saved is clean |
| TimelineEditor.SanitizeConcat | autobiography-data-builder/src/components/timeline/timeline-manager.tsx:53-61 | sanitising works event by event, in order |
| TimelineEditor.SanitizeSingle | autobiography-data-builder/src/components/timeline/timeline-manager.tsx:54 | an event is saved, cleaned, exactly when its trimmed title is non-empty and it has a date |
| TimelineEditor.SanitizeIdempotent | autobiography-data-builder/src/components/timeline/timeline-manager.tsx:53-61 | sanitising a sanitised list changes nothing |
| SectionsWizard.ValidMeansFilledIn | autobiography-data-builder/src/components/dashboard/sections-form.tsx:15-40 | the form is valid exactly when the name and all six summaries are non-empty; the optional fields never matter |
| SectionsWizard.Valid | autobiography-data-builder/src/components/dashboard/sections-form.tsx:15-40 | the schema is stated by `SectionsWizard.ValidMeansFilledIn`: the name and all six summaries non-empty |
| SectionsWizard.StepsInOrder | autobiography-data-builder/src/components/dashboard/sections-form.tsx:44-52 | seven steps: personal details, then the chapters in the record's order under their titles |
| SectionsWizard.Persist | autobiography-data-builder/src/components/dashboard/sections-form.tsx:99-114 | the save request carries the personal details and each chapter's summary |
| SectionsWizard.Load | autobiography-data-builder/src/components/dashboard/sections-form.tsx:64-97 | the form starts from the record's name and summaries |
| SectionsWizard.SaveUnchangedRoundTrip | autobiography-data-builder/src/components/dashboard/sections-form.tsx:64-114 | saving an untouched form sends the record's own chapters and details back |
| SectionsWizard.HandleNext | autobiography-data-builder/src/components/dashboard/sections-form.tsx:132-141 | an invalid form changes nothing; a valid one moves one step on, or is saved on the last step; the cursor stays on the steps |
| SectionsWizard.HandlePrev | autobiography-data-builder/src/components/dashboard/sections-form.tsx:143-145 | one step back, never before the first |
| SectionsWizard.Apply | autobiography-data-builder/src/components/dashboard/sections-form.tsx:152-161 | a step button moves the cursor there; quick save saves without moving or validating |
| SectionsWizard.Run | autobiography-data-builder/src/components/dashboard/sections-form.tsx:132-161 | a session of clicks is stated by `SectionsWizard.RunStaysOnSteps` and `SectionsWizard.NavigationSavesOnlyValid` |
| SectionsWizard.RunStaysOnSteps | autobiography-data-builder/src/components/dashboard/sections-form.tsx:132-161 | from a valid step, any session of clicks keeps the cursor on an existing step |
| SectionsWizard.NavigationSavesOnlyValid | autobiography-data-builder/src/components/dashboard/sections-form.tsx:132-141 | with only Next and Previous, every request sent is the save of a form that passed validation |
| ExportPanel.ClientFilename | autobiography-data-builder/src/components/dashboard/export-panel.tsx:44-46 | the saved name ends in the type's extension, its base has no white space and is the title's filename base |
| ExportPanel.UntitledClientFilename | autobiography-data-builder/src/components/dashboard/export-panel.tsx:44-46 | an untitled record is saved as `autobiography.pdf` or `autobiography.docx` |
| ExportPanel.ClientFilenameMatchesRoutes | autobiography-data-builder/src/components/dashboard/export-panel.tsx:44-46 | the browser's name matches the Word route's always and the PDF route's exactly for non-empty titles |
| ExportPanel.ExportBody | autobiography-data-builder/src/components/dashboard/export-panel.tsx:47-50 | the export body carries the stored title, and the draft exactly when one is stored |
| ExportPanel.ExportRendersDraft | autobiography-data-builder/src/components/dashboard/export-panel.tsx:47-50 | an export from the panel renders the stored draft, or the fallback when none is stored |
| ExportPanel.PanelPdfExport | autobiography-data-builder/src/components/dashboard/export-panel.tsx:40-58 | a signed-in panel export gets a PDF titled with the record's title |
| ExportPanel.PanelDocxExport | autobiography-data-builder/src/components/dashboard/export-panel.tsx:40-58 | a signed-in panel export gets a Word file named as the browser saves it |
| ExportPanel.TogglePayload | autobiography-data-builder/src/components/dashboard/export-panel.tsx:66-69 | the toggle asks for the opposite visibility and keeps the public id |
| ExportPanel.ToggleTwice | autobiography-data-builder/src/components/dashboard/export-panel.tsx:60-69 | toggling twice asks for the original visibility |
| ExportPanel.ShareLink | autobiography-data-builder/src/components/dashboard/export-panel.tsx:89-97 | a link exists exactly for a public record with a public id, and is origin, `/share/` and the id |
| ExportPanel.ShareLinksDistinct | autobiography-data-builder/src/components/dashboard/export-panel.tsx:93 | two public records share a link exactly when they share a public id |
| Register.NormalName | autobiography-data-builder/src/app/api/auth/register/route.ts:8 | the stored name is the field's text with white space cut from both ends only (trimmed, and empty exactly for all-white-space text); a field that is not a string gives the empty name; an already trimmed name is kept |
| Register.NormalEmail | autobiography-data-builder/src/app/api/auth/register/route.ts:9 | the stored email is the lower-cased field text with white space cut from both ends only, so it is lower-case and trimmed; a field that is not a string gives the empty address |
| Register.NormalEmailIdempotent | autobiography-data-builder/src/app/api/auth/register/route.ts:9 | normalising a normalised email changes nothing |
| Register.MissingField | autobiography-data-builder/src/app/api/auth/register/route.ts:12 | when fields count as missing is stated by `Register.Register`: for a body whose reading does not throw, the 400 missing-fields answer is given exactly in this case |
| Register.Register | autobiography-data-builder/src/app/api/auth/register/route.ts:6-48 | each response exactly in its case: missing fields 400, short password 400, taken email 409, otherwise 201 and one appended user with role `user`; failures change no stored user |
| Register.RegisterKeepsEmailsUnique | autobiography-data-builder/src/app/api/auth/register/route.ts:23-38 | registering keeps stored emails unique |
| Register.RegisterAllKeepsEmailsUnique | autobiography-data-builder/src/app/api/auth/register/route.ts:23-38 | any sequence of registrations keeps stored emails unique |
| Register.SecondRegistrationTaken | autobiography-data-builder/src/app/api/auth/register/route.ts:23-27 | a complete request for a new address whose password is at least 8 UTF-16 code units long is accepted, and a second one for the same normalised address is then refused with 409 |
| AdminUsers.BiographyMap | autobiography-data-builder/src/app/api/admin/users/route.ts:25-28 | the last biography's owner is in the map |
| AdminUsers.IsAdmin | autobiography-data-builder/src/app/api/admin/users/route.ts:8 | who may list users is stated by `AdminUsers.ListUsers`: 403 exactly when the session has no user id or a role other than `admin` |
| AdminUsers.BiographyMapOwners | autobiography-data-builder/src/app/api/admin/users/route.ts:25-28 | the map holds exactly the ids that own a biography |
| AdminUsers.BiographyMapLastWins | autobiography-data-builder/src/app/api/admin/users/route.ts:25-28 | each id maps to the last biography it owns |
| AdminUsers.LastForUnique | autobiography-data-builder/src/app/api/admin/users/route.ts:25-28 | an owner's last biography is unique |
| AdminUsers.Entry | autobiography-data-builder/src/app/api/admin/users/route.ts:30-45 | a row copies the user's fields, defaults the role to `user`, and takes activity, title and visibility from the biography or has none |
| AdminUsers.ListUsers | autobiography-data-builder/src/app/api/admin/users/route.ts:6-45 | 403 exactly for a non-admin; otherwise one row per user, in order |
| AdminUsers.ListingJoin | autobiography-data-builder/src/app/api/admin/users/route.ts:25-45 | each row joins its user with that user's last biography, or with none |
| AdminUsers.ListingIgnoresPasswords | autobiography-data-builder/src/app/api/admin/users/route.ts:30-45 | the listing does not depend on stored passwords |

## Left out

- The text generator itself is not modelled. Its answer to a prompt is the parameter `generator`, and a failure of the call is `None`.
- Storing the draft after generation is not modelled. That step is `updateStoryDraft` in a library module that is not part of this model.
- The other database reads and writes are not modelled either: `ensureBiography`, `findOne`, `insertOne` and the biography lookups for the listing. The records they return are inputs.
- Sessions are not modelled. The session user is an input.
- React state, rendering, toasts, timers, `fetch`, the browser download and the clipboard are not modelled. The model keeps only the values the components compute and send.
- The clock, `uuid`, `crypto.randomUUID` and bcrypt are not modelled. They are the parameters `now`, `freshId` and `hash`.
- Concurrency is not modelled: two registrations racing between `findOne` and `insertOne`, or `Promise.all` in the listing. Operations run one at a time.
- Case mapping is ASCII only. The JavaScript `toLowerCase`/`toUpperCase` map every Unicode letter; the model maps `A`–`Z` only.
- The PDF and Word libraries' own output is not modelled: bytes, pagination, fonts and page layout. The model stops at the operations and paragraphs the code asks for.
- A `styleMap` lookup by an inherited property name such as `constructor` is not modelled. Every name other than the four styles yields `undefined`.
- Register.Register: a password that is a non-string JSON value is modelled as the route's 500 response. In the source a falsy one (`0`, `false`) gets the 400 missing-fields answer, and another one reaches the length test and the hash. All string passwords are modelled exactly.
- Register.Register: a body that is valid JSON but not an object, such as `null`, is not a separate case. It is represented as a body with all three keys absent, which the optional chaining in the source makes it equivalent to.
- Text.UnderscoreWhitespaceRuns: its own contract states the shape of the result (no white space, never longer, empty only for the empty input, unchanged without white space) and not its value. The value on every input is stated by `Text.UnderscoreRunPrefix`, `Text.UnderscoreCopies` and `Text.UnderscoreWordPrefix`, because an ensures naming the exact result would only repeat the definition.
- TimelineEditor.WithoutId: its own contract states which events are kept, not how often or in what order. The counts are stated by `TimelineEditor.WithoutIdCounts` and the order by `TimelineEditor.WithoutIdConcat`.
- A failure inside the PDF or Word library while producing the file, which both routes answer with 500, is not modelled: the libraries' output is not modelled at all.
- The public share page and the public biography route are not part of this model. They only read what the share toggle writes.
- The customisation panel, the story generator component and the login form are not part of this model. They call the modelled routes and add no logic of their own.
