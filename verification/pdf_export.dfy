/** The PDF export route: the fallback text composed from the record (with
    `**Label:**` markup and the timeline), the line-by-line drawing commands, the
    title and the filename. */
module PdfExport {
  import opened Wrappers
  import opened Text
  import opened Biography
  import opened Markup
  import opened ExportRequest
  import opened FallbackParts

  // ---------------------------------------------------------------------
  // Drawing commands
  // ---------------------------------------------------------------------

  datatype Align = Left | Center

  /** One call on the PDF document, in the order the route makes them.
      `Text` carries the text and the two options the route passes. */
  datatype PdfOp =
    | MoveDown
    | FontSize(size: nat)
    | FillColor(color: string)
    | Text(text: string, align: Option<Align>, continued: Option<bool>)

  const TitleSize: nat := 20
  const Heading1Size: nat := 22
  const Heading2Size: nat := 16
  const Heading3Size: nat := 14
  const BodySize: nat := 12
  const QuoteColor: string := "#666666"
  const InkColor: string := "#000000"

  const PdfContentType: string := "application/pdf"

  /** The route's reading of one line: the markers are checked in the order
      `# `, `## `, `### `, `**`, `> `, then blank. No two of them can start
      the same line and none starts a blank line, so each class is fixed by
      the line's own prefix. */
  function Classify(line: string): (c: LineClass)
    ensures c == Heading1 <==> StartsWith(line, Heading1Marker)
    ensures c == Markup.Heading2 <==> StartsWith(line, Heading2Marker)
    ensures c == Markup.Heading3 <==> StartsWith(line, Heading3Marker)
    ensures c == Starred <==> StartsWith(line, StarsMarker)
    ensures c == Quote <==> StartsWith(line, QuoteMarker)
    ensures c == Blank <==> IsBlank(line)
  {
    MarkerChars(line);
    MarkedLineNotBlank(line);
    if StartsWith(line, Heading1Marker) then Heading1
    else if StartsWith(line, Heading2Marker) then Markup.Heading2
    else if StartsWith(line, Heading3Marker) then Markup.Heading3
    else if StartsWith(line, StarsMarker) then Starred
    else if StartsWith(line, QuoteMarker) then Quote
    else if IsBlank(line) then Blank
    else Plain
  }

  /** The commands for one line. Headings move down and draw the text after
      the marker at 22, 16 or 14 points; a `**` line draws the line with
      every `**` removed at 12 points; a quote moves down, draws the text
      after the marker centred in grey and restores black; a blank line only
      moves down; any other line is drawn left-aligned at 12 points. */
  function LineOps(line: string): (ops: seq<PdfOp>)
    ensures Classify(line) == Heading1 ==>
              ops == [MoveDown, FontSize(Heading1Size), Text(line[2..], None, None)]
    ensures Classify(line) == Markup.Heading2 ==>
              ops == [MoveDown, FontSize(Heading2Size), Text(line[3..], None, None)]
    ensures Classify(line) == Markup.Heading3 ==>
              ops == [MoveDown, FontSize(Heading3Size), Text(line[4..], None, None)]
    ensures Classify(line) == Starred ==>
              ops == [FontSize(BodySize), Text(RemoveDoubleStars(line), None, Some(false))]
    ensures Classify(line) == Quote ==>
              ops == [MoveDown, FontSize(BodySize), FillColor(QuoteColor),
                      Text(line[2..], Some(Center), None), FillColor(InkColor)]
    ensures Classify(line) == Blank ==> ops == [MoveDown]
    ensures Classify(line) == Plain ==> ops == [FontSize(BodySize), Text(line, Some(Left), None)]
  {
    match Classify(line)
    case Heading1 =>
      ReplaceFirstAtStart(line, Heading1Marker);
      [MoveDown, FontSize(Heading1Size), Text(ReplaceFirst(line, Heading1Marker, ""), None, None)]
    case Heading2 =>
      ReplaceFirstAtStart(line, Heading2Marker);
      [MoveDown, FontSize(Heading2Size), Text(ReplaceFirst(line, Heading2Marker, ""), None, None)]
    case Heading3 =>
      ReplaceFirstAtStart(line, Heading3Marker);
      [MoveDown, FontSize(Heading3Size), Text(ReplaceFirst(line, Heading3Marker, ""), None, None)]
    case Starred =>
      [FontSize(BodySize), Text(RemoveDoubleStars(line), None, Some(false))]
    case Quote =>
      ReplaceFirstAtStart(line, QuoteMarker);
      [MoveDown, FontSize(BodySize), FillColor(QuoteColor),
       Text(ReplaceFirst(line, QuoteMarker, ""), Some(Center), None), FillColor(InkColor)]
    case Blank => [MoveDown]
    case Plain => [FontSize(BodySize), Text(line, Some(Left), None)]
  }

  /** The title block drawn before the content: the title centred at 20
      points, then a line of space. */
  function TitleOps(title: string): (ops: seq<PdfOp>)
    ensures Texts(ops) == [title]
    ensures LastFill(ops).None?
  {
    var ops := [FontSize(TitleSize), Text(title, Some(Center), None), MoveDown];
    assert Texts(ops[2..]) == [] by { assert ops[2..][1..] == []; }
    assert Texts(ops[1..]) == [title] by { assert ops[1..][1..] == ops[2..]; }
    assert LastFill(ops[..1]).None? by { assert ops[..1][..0] == []; }
    assert LastFill(ops[..2]).None? by { assert ops[..2][..1] == ops[..1]; }
    assert ops[..3 - 1] == ops[..2];
    ops
  }

  /** The commands for each line, in order. */
  function LineSteps(lines: seq<string>): (steps: seq<seq<PdfOp>>)
    ensures |steps| == |lines|
    ensures forall i :: 0 <= i < |steps| ==> steps[i] == LineOps(lines[i])
  {
    seq(|lines|, i requires 0 <= i < |lines| => LineOps(lines[i]))
  }

  /** Everything the route draws: the title block, then one step per
      `"\n"`-separated line of the content. */
  datatype PdfRendering = PdfRendering(titleOps: seq<PdfOp>, lineOps: seq<seq<PdfOp>>)

  function RenderPdf(content: string, title: string): (r: PdfRendering)
    ensures r.titleOps == [FontSize(TitleSize), Text(title, Some(Center), None), MoveDown]
    ensures |r.lineOps| == Count(content, '\n') + 1
    ensures forall i :: 0 <= i < |r.lineOps| ==> r.lineOps[i] == LineOps(SplitLines(content)[i])
  {
    PdfRendering(TitleOps(title), LineSteps(SplitLines(content)))
  }

  // ---------------------------------------------------------------------
  // Properties of one line's commands
  // ---------------------------------------------------------------------

  /** The texts a step draws, in order. */
  function Texts(ops: seq<PdfOp>): (ts: seq<string>)
    ensures |ts| <= |ops|
  {
    if ops == [] then []
    else (if ops[0].Text? then [ops[0].text] else []) + Texts(ops[1..])
  }

  /** The fill colour a step leaves in effect, if it sets one. */
  function LastFill(ops: seq<PdfOp>): Option<string> {
    if ops == [] then None
    else if ops[|ops| - 1].FillColor? then Some(ops[|ops| - 1].color)
    else LastFill(ops[..|ops| - 1])
  }

  /** A blank line draws nothing; every other line draws exactly one text,
      and no line leaves the grey quote colour in effect. */
  lemma OneTextPerLine(line: string)
    ensures IsBlank(line) <==> Texts(LineOps(line)) == []
    ensures !IsBlank(line) ==> |Texts(LineOps(line))| == 1
    ensures LastFill(LineOps(line)) == None || LastFill(LineOps(line)) == Some(InkColor)
  {
    var ops := LineOps(line);
    match Classify(line)
    case Blank =>
      assert ops == [MoveDown];
      assert Texts(ops) == [] + Texts([]);
      assert LastFill(ops) == LastFill([]);
    case Heading1 => TextInThird(MoveDown, FontSize(Heading1Size), Text(line[2..], None, None));
    case Heading2 => TextInThird(MoveDown, FontSize(Heading2Size), Text(line[3..], None, None));
    case Heading3 => TextInThird(MoveDown, FontSize(Heading3Size), Text(line[4..], None, None));
    case Starred => TextInSecond(FontSize(BodySize), Text(RemoveDoubleStars(line), None, Some(false)));
    case Plain => TextInSecond(FontSize(BodySize), Text(line, Some(Left), None));
    case Quote => QuoteTextOnly(line[2..]);
  }

  /** Two commands whose only text is the second. */
  lemma TextInSecond(a: PdfOp, b: PdfOp)
    requires !a.Text? && b.Text? && !a.FillColor? && !b.FillColor?
    ensures Texts([a, b]) == [b.text]
    ensures LastFill([a, b]) == None
  {
    var ops := [a, b];
    assert Texts(ops) == [] + Texts(ops[1..]);
    assert Texts(ops[1..]) == [b.text] + Texts([]);
    assert LastFill(ops) == LastFill(ops[..1]);
    assert LastFill(ops[..1]) == LastFill([]);
  }

  /** Three commands whose only text is the third. */
  lemma TextInThird(a: PdfOp, b: PdfOp, c: PdfOp)
    requires !a.Text? && !b.Text? && c.Text?
    requires !a.FillColor? && !b.FillColor? && !c.FillColor?
    ensures Texts([a, b, c]) == [c.text]
    ensures LastFill([a, b, c]) == None
  {
    var ops := [a, b, c];
    assert Texts(ops) == [] + Texts(ops[1..]);
    assert Texts(ops[1..]) == [] + Texts(ops[2..]);
    assert Texts(ops[2..]) == [c.text] + Texts([]);
    assert LastFill(ops) == LastFill(ops[..2]);
    assert LastFill(ops[..2]) == LastFill(ops[..1]);
    assert LastFill(ops[..1]) == LastFill([]);
  }

  /** A quote step draws only the quote and leaves black ink behind. */
  lemma QuoteTextOnly(t: string)
    ensures var ops := [MoveDown, FontSize(BodySize), FillColor(QuoteColor),
                        Text(t, Some(Center), None), FillColor(InkColor)];
            Texts(ops) == [t] && LastFill(ops) == Some(InkColor)
  {
    var ops := [MoveDown, FontSize(BodySize), FillColor(QuoteColor),
                Text(t, Some(Center), None), FillColor(InkColor)];
    var rest := ops[3..];
    assert Texts(ops) == [] + Texts(ops[1..]);
    assert Texts(ops[1..]) == [] + Texts(ops[2..]);
    assert Texts(ops[2..]) == [] + Texts(rest);
    assert Texts(rest) == [t] + Texts(rest[1..]);
    assert Texts(rest[1..]) == [] + Texts([]);
  }

  /** Writing a text behind a heading marker and drawing it gives the text
      back, at that heading's size. */
  lemma HeadingRoundTrip(t: string)
    ensures LineOps(Heading1Marker + t) == [MoveDown, FontSize(Heading1Size), Text(t, None, None)]
    ensures LineOps(Heading2Marker + t) == [MoveDown, FontSize(Heading2Size), Text(t, None, None)]
    ensures LineOps(Heading3Marker + t) == [MoveDown, FontSize(Heading3Size), Text(t, None, None)]
    ensures LineOps(QuoteMarker + t) ==
              [MoveDown, FontSize(BodySize), FillColor(QuoteColor), Text(t, Some(Center), None), FillColor(InkColor)]
  {
    var l1 := Heading1Marker + t;
    var l2 := Heading2Marker + t;
    var l3 := Heading3Marker + t;
    var lq := QuoteMarker + t;
    MarkerChars(l1);
    MarkerChars(l2);
    MarkerChars(l3);
    MarkerChars(lq);
    assert l1[2..] == t && l2[3..] == t && l3[4..] == t && lq[2..] == t;
  }

  /** A text without `*` is kept whole when `**` pairs are removed in front
      of other text. */
  lemma {:induction false} StarFreePrefix(x: string, y: string)
    requires forall i :: 0 <= i < |x| ==> x[i] != '*'
    ensures RemoveDoubleStars(x + y) == x + RemoveDoubleStars(y)
  {
    if x == [] {
      assert x + y == y;
    } else {
      var s := x + y;
      assert s[0] == x[0] && s[0] != '*';
      assert s[1..] == x[1..] + y;
      assert RemoveDoubleStars(s) == [s[0]] + RemoveDoubleStars(s[1..]);
      StarFreePrefix(x[1..], y);
      assert x == [x[0]] + x[1..];
    }
  }

  /** Removing the `**` pairs of `**key:** value` leaves `key: value`, with
      the pairs in the value removed too. */
  lemma LabelStarsRemoved(key: string, value: string)
    requires forall i :: 0 <= i < |key| ==> key[i] != '*'
    ensures RemoveDoubleStars(StarsMarker + key + ":" + StarsMarker + " " + value) ==
              key + ": " + RemoveDoubleStars(value)
  {
    var x := key + ":";
    assert forall i :: 0 <= i < |x| ==> x[i] != '*';
    var tail := StarsMarker + " " + value;
    var line := StarsMarker + key + ":" + StarsMarker + " " + value;
    assert line == StarsMarker + (x + tail);
    assert RemoveDoubleStars(line) == RemoveDoubleStars(x + tail);
    StarFreePrefix(x, tail);
    assert tail == "**" + (" " + value);
    assert RemoveDoubleStars(tail) == RemoveDoubleStars(" " + value);
    StarFreePrefix(" ", value);
    assert x + (" " + RemoveDoubleStars(value)) == key + ": " + RemoveDoubleStars(value);
  }

  /** A labelled line `**key:** value` is drawn as `key: value`, with any
      `**` in the value removed too, at body size. */
  lemma LabelLineDrawn(key: string, value: string)
    requires forall i :: 0 <= i < |key| ==> key[i] != '*'
    ensures LineOps(StarsMarker + key + ":" + StarsMarker + " " + value) ==
              [FontSize(BodySize), Text(key + ": " + RemoveDoubleStars(value), None, Some(false))]
  {
    var line := StarsMarker + key + ":" + StarsMarker + " " + value;
    assert line[0] == '*' && line[1] == '*';
    MarkerChars(line);
    assert Classify(line) == Starred;
    LabelStarsRemoved(key, value);
  }

  // ---------------------------------------------------------------------
  // Fallback text
  // ---------------------------------------------------------------------

  /** The separator between an event's date and title, exactly as the source
      file spells it: the three characters an em dash becomes when its UTF-8
      bytes are read as Windows-1252. */
  const EventSeparator: string := " \U{00E2}\U{20AC}\U{201D} "

  const TimelineHeading: string := "### Timeline Highlights"

  /** `**label:** value`, with `N/A` for an empty value. */
  function LabelLine(key: string, value: string): string {
    StarsMarker + key + ":" + StarsMarker + " " + Or(value, MissingValue)
  }

  /** A blank line, the four labelled personal values and a blank line. */
  function PersonalBlock(pi: PersonalInformation): seq<string> {
    ["",
     LabelLine("Name", pi.name),
     LabelLine("Date of birth", pi.dateOfBirth),
     LabelLine("Birthplace", pi.birthplace),
     LabelLine("Background", pi.background),
     ""]
  }

  /** One event: `date — title`, the description, `Notes: …` only when there
      are notes, and a blank line. */
  function EventLines(e: TimelineEvent): (lines: seq<string>)
    ensures |lines| == if Truthy(e.notes) then 4 else 3
    ensures lines[0] == e.date + EventSeparator + e.title
    ensures lines[1] == e.description
    ensures Truthy(e.notes) ==> lines[2] == "Notes: " + e.notes.value
    ensures lines[|lines| - 1] == ""
  {
    [e.date + EventSeparator + e.title, e.description]
    + (if Truthy(e.notes) then ["Notes: " + e.notes.value] else [])
    + [""]
  }

  /** The events' lines, one event after another. */
  function EventsLines(events: seq<TimelineEvent>): (lines: seq<string>)
    ensures 3 * |events| <= |lines| <= 4 * |events|
    ensures events != [] ==> lines[|lines| - 1] == ""
  {
    if events == [] then [] else EventLines(events[0]) + EventsLines(events[1..])
  }

  /** The timeline section: its heading and the events, only when there is
      at least one event. */
  function TimelineBlock(events: seq<TimelineEvent>): (lines: seq<string>)
    ensures lines == [] <==> events == []
    ensures events != [] ==> lines[0] == TimelineHeading && lines[1..] == EventsLines(events)
    ensures events != [] ==> lines[|lines| - 1] == ""
  {
    if |events| == 0 then [] else [TimelineHeading] + EventsLines(events)
  }

  /** The quote, only when there is one. It adds no blank line of its own:
      the line before it is the blank that ends the chapters or the last
      event (`FallbackTail`). */
  function QuoteTail(c: Customization): seq<string> {
    if Truthy(c.favoriteQuote) then [QuoteMarker + c.favoriteQuote.value] else []
  }

  /** The lines used when neither the request nor the record holds a story.
      Every chapter, the last one included, is followed by a blank line. */
  function FallbackSegments(bio: BiographyDocument): seq<string> {
    HeaderLines(bio.customization)
    + PersonalBlock(bio.personalInformation)
    + ChapterBlocks(bio) + [""]
    + TimelineBlock(bio.timeline)
    + QuoteTail(bio.customization)
  }

  function FallbackContent(bio: BiographyDocument): string {
    JoinLines(FallbackSegments(bio))
  }

  /** Listing two runs of events one after the other lists the first run's
      lines, then the second's. */
  lemma {:induction false} EventsLinesConcat(a: seq<TimelineEvent>, b: seq<TimelineEvent>)
    ensures EventsLines(a + b) == EventsLines(a) + EventsLines(b)
  {
    if a == [] {
      assert a + b == b;
    } else {
      assert (a + b)[0] == a[0];
      assert (a + b)[1..] == a[1..] + b;
      EventsLinesConcat(a[1..], b);
    }
  }

  /** The events' fields hold no line break. */
  predicate EventsSingleLine(events: seq<TimelineEvent>) {
    forall i :: 0 <= i < |events| ==>
      && '\n' !in events[i].date && '\n' !in events[i].title
      && '\n' !in events[i].description
      && (events[i].notes.Some? ==> '\n' !in events[i].notes.value)
  }

  lemma {:induction false} EventsLinesSingle(events: seq<TimelineEvent>)
    requires EventsSingleLine(events)
    ensures NoLineBreaks(EventsLines(events))
  {
    if events != [] {
      var e := events[0];
      var first := EventLines(e);
      assert '\n' !in EventSeparator;
      assert '\n' !in first[0];
      assert NoLineBreaks(first);
      assert EventsSingleLine(events[1..]) by {
        forall i | 0 <= i < |events[1..]| ensures events[1..][i] == events[i + 1] {}
      }
      EventsLinesSingle(events[1..]);
      NoLineBreaksConcat(first, EventsLines(events[1..]));
    }
  }

  /** The personal block follows the header lines. */
  lemma FallbackPersonalLines(bio: BiographyDocument)
    ensures var segs := FallbackSegments(bio);
            var o := |HeaderLines(bio.customization)|;
            && |segs| >= o + 6
            && segs[o..o + 6] == PersonalBlock(bio.personalInformation)
  {
    var h := HeaderLines(bio.customization);
    var p := PersonalBlock(bio.personalInformation);
    var rest := ChapterBlocks(bio) + [""] + TimelineBlock(bio.timeline) + QuoteTail(bio.customization);
    assert FallbackSegments(bio) == h + p + rest;
  }

  /** Each of the six chapters takes three lines, heading, text and a blank
      line, after the header and the six-line personal block. */
  lemma FallbackChapterLines(bio: BiographyDocument)
    ensures |FallbackSegments(bio)| >= |HeaderLines(bio.customization)| + 24
    ensures forall i :: 0 <= i < 6 ==>
              FallbackSegments(bio)[|HeaderLines(bio.customization)| + 6 + 3 * i] == "### " + SectionTitle(SectionOrder[i])
    ensures forall i :: 0 <= i < 6 ==>
              FallbackSegments(bio)[|HeaderLines(bio.customization)| + 7 + 3 * i]
                == Or(bio.Section(SectionOrder[i]).summary, "No content provided.")
    ensures forall i :: 0 <= i < 6 ==> FallbackSegments(bio)[|HeaderLines(bio.customization)| + 8 + 3 * i] == ""
  {
    var c := bio.customization;
    var h := HeaderLines(c);
    var p := PersonalBlock(bio.personalInformation);
    var cb := ChapterBlocks(bio) + [""];
    var segs := FallbackSegments(bio);
    var o := |h|;
    var tail := TimelineBlock(bio.timeline) + QuoteTail(c);
    ClosedChapterBlocks(bio);
    Regroup(h + p, ChapterBlocks(bio), [""], TimelineBlock(bio.timeline), QuoteTail(c));
    assert segs == (h + p) + cb + tail;
    assert |h + p| == o + 6;
    assert |segs| >= o + 24;
    forall i | 0 <= i < 6
      ensures segs[o + 6 + 3 * i] == "### " + SectionTitle(SectionOrder[i])
      ensures segs[o + 7 + 3 * i] == Or(bio.Section(SectionOrder[i]).summary, "No content provided.")
      ensures segs[o + 8 + 3 * i] == ""
    {
      IndexMiddle(h + p, cb, tail, 3 * i);
      IndexMiddle(h + p, cb, tail, 3 * i + 1);
      IndexMiddle(h + p, cb, tail, 3 * i + 2);
    }
  }

  /** The chapter blocks with the blank line the PDF fallback adds after the
      last one: three lines per chapter. */
  lemma ClosedChapterBlocks(bio: BiographyDocument)
    ensures var cb := ChapterBlocks(bio) + [""];
            && |cb| == 18
            && forall i :: 0 <= i < 6 ==>
                 && cb[3 * i] == "### " + SectionTitle(SectionOrder[i])
                 && cb[3 * i + 1] == Or(bio.Section(SectionOrder[i]).summary, "No content provided.")
                 && cb[3 * i + 2] == ""
  {
    var cs := Chapters(bio);
    var cb := ChapterBlocks(bio) + [""];
    BlankSeparatedShape(cs);
    IndexInside(ChapterBlocks(bio), [""]);
    assert cb[17] == "";
  }

  /** After the chapters come the timeline section, present exactly when
      there are events, and then the quote, last, exactly when there is one.
      The line before the quote is always blank: the one that closes the
      chapters, or the one that closes the last event. */
  lemma FallbackTail(bio: BiographyDocument)
    ensures var segs := FallbackSegments(bio);
            var o := |HeaderLines(bio.customization)|;
            var q := bio.customization.favoriteQuote;
            && |segs| == o + 24 + |TimelineBlock(bio.timeline)| + (if Truthy(q) then 1 else 0)
            && segs[o + 24..o + 24 + |TimelineBlock(bio.timeline)|] == TimelineBlock(bio.timeline)
            && (bio.timeline != [] ==> segs[o + 24] == TimelineHeading)
            && (Truthy(q) ==> segs[|segs| - 1] == "> " + q.value)
            && (Truthy(q) ==> segs[|segs| - 2] == "")
  {
    var c := bio.customization;
    var front := HeaderLines(c) + PersonalBlock(bio.personalInformation) + ChapterBlocks(bio) + [""];
    var tb := TimelineBlock(bio.timeline);
    BlankSeparatedShape(Chapters(bio));
    assert |front| == |HeaderLines(c)| + 24;
    assert FallbackSegments(bio) == front + tb + QuoteTail(c);
  }

  /** The record's fields that the PDF fallback embeds, the events' fields
      included, hold no line break. */
  predicate FallbackSingleLine(bio: BiographyDocument) {
    SingleLineFields(bio) && EventsSingleLine(bio.timeline)
  }

  lemma PersonalBlockSingleLine(bio: BiographyDocument)
    requires SingleLineFields(bio)
    ensures NoLineBreaks(PersonalBlock(bio.personalInformation))
  {
    var pi := bio.personalInformation;
    assert '\n' !in MissingValue;
    assert '\n' !in Or(pi.name, MissingValue) && '\n' !in Or(pi.dateOfBirth, MissingValue);
    assert '\n' !in Or(pi.birthplace, MissingValue) && '\n' !in Or(pi.background, MissingValue);
  }

  lemma TimelineBlockSingleLine(events: seq<TimelineEvent>)
    requires EventsSingleLine(events)
    ensures NoLineBreaks(TimelineBlock(events))
  {
    EventsLinesSingle(events);
    if events != [] {
      assert '\n' !in TimelineHeading;
      NoLineBreaksConcat([TimelineHeading], EventsLines(events));
    }
  }

  /** With single-line fields, splitting the fallback text gives back exactly
      its lines. */
  lemma FallbackLines(bio: BiographyDocument)
    requires FallbackSingleLine(bio)
    ensures SplitLines(FallbackContent(bio)) == FallbackSegments(bio)
  {
    var c := bio.customization;
    var pi := bio.personalInformation;
    var h := HeaderLines(c);
    var p := PersonalBlock(pi);
    var cb := ChapterBlocks(bio) + [""];
    var tb := TimelineBlock(bio.timeline);
    var q := QuoteTail(c);
    HeaderFacts(bio);
    ChapterBlocksLines(bio);
    NoLineBreaksConcat(ChapterBlocks(bio), [""]);
    PersonalBlockSingleLine(bio);
    TimelineBlockSingleLine(bio.timeline);
    assert NoLineBreaks(q);
    NoLineBreaksConcat(h, p);
    NoLineBreaksConcat(tb, q);
    NoLineBreaksConcat(h + p, cb);
    NoLineBreaksConcat(h + p + cb, tb + q);
    Regroup(h + p, ChapterBlocks(bio), [""], tb, q);
    SplitJoin(FallbackSegments(bio));
  }

  /** With single-line fields the fallback is drawn one step per fallback
      line, in order, after the title block. */
  lemma FallbackRendering(bio: BiographyDocument, title: string)
    requires FallbackSingleLine(bio)
    ensures RenderPdf(FallbackContent(bio), title) ==
              PdfRendering(TitleOps(title), LineSteps(FallbackSegments(bio)))
  {
    FallbackLines(bio);
  }

  /** The fallback's first line draws the record's title (or `Autobiography`)
      at the largest heading size, so with the title block the document
      shows its title twice. */
  lemma FallbackTitleStep(bio: BiographyDocument)
    ensures var steps := LineSteps(FallbackSegments(bio));
            |steps| > 0 &&
            steps[0] == [MoveDown, FontSize(Heading1Size),
                         Text(Or(bio.customization.title, "Autobiography"), None, None)]
  {
    HeaderFacts(bio);
    assert FallbackSegments(bio)[0] == HeaderLines(bio.customization)[0];
    HeadingRoundTrip(Or(bio.customization.title, DefaultTitle));
  }

  /** The four personal labels, in order, and the values they introduce. */
  const PersonalLabels: seq<string> := ["Name", "Date of birth", "Birthplace", "Background"]

  function PersonalValues(pi: PersonalInformation): seq<string> {
    [pi.name, pi.dateOfBirth, pi.birthplace, pi.background]
  }

  /** The labels are free of `*`. */
  lemma LabelsStarFree()
    ensures forall j, i :: 0 <= j < 4 && 0 <= i < |PersonalLabels[j]| ==> PersonalLabels[j][i] != '*'
  {
  }

  /** The personal block's four middle lines are the labelled values. */
  lemma PersonalBlockLabels(pi: PersonalInformation)
    ensures forall j :: 0 <= j < 4 ==>
              PersonalBlock(pi)[j + 1] == LabelLine(PersonalLabels[j], PersonalValues(pi)[j])
  {
  }

  /** The four labelled lines of the personal block are drawn without their
      `**` markers, as `label: value` with `N/A` for an empty value. */
  lemma PersonalBlockSteps(pi: PersonalInformation)
    ensures forall j :: 0 <= j < 4 ==>
              LineOps(PersonalBlock(pi)[j + 1]) ==
                [FontSize(BodySize),
                 Text(PersonalLabels[j] + ": " + RemoveDoubleStars(Or(PersonalValues(pi)[j], "N/A")), None, Some(false))]
  {
    PersonalBlockLabels(pi);
    LabelsStarFree();
    forall j | 0 <= j < 4
      ensures LineOps(PersonalBlock(pi)[j + 1]) ==
                [FontSize(BodySize),
                 Text(PersonalLabels[j] + ": " + RemoveDoubleStars(Or(PersonalValues(pi)[j], "N/A")), None, Some(false))]
    {
      LabelLineDrawn(PersonalLabels[j], Or(PersonalValues(pi)[j], MissingValue));
    }
  }

  /** In the drawn fallback the personal values appear as `Name: …`,
      `Date of birth: …`, `Birthplace: …` and `Background: …`, with `N/A`
      for an empty value, right after the header. */
  lemma FallbackPersonalSteps(bio: BiographyDocument)
    ensures var steps := LineSteps(FallbackSegments(bio));
            var o := |HeaderLines(bio.customization)|;
            && |steps| >= o + 6
            && (forall j :: 1 <= j <= 4 ==> steps[o + j] == LineOps(PersonalBlock(bio.personalInformation)[j]))
            && forall j :: 0 <= j < 4 ==>
                 steps[o + j + 1] ==
                   [FontSize(BodySize),
                    Text(PersonalLabels[j] + ": " + RemoveDoubleStars(Or(PersonalValues(bio.personalInformation)[j], "N/A")),
                         None, Some(false))]
  {
    var segs := FallbackSegments(bio);
    var o := |HeaderLines(bio.customization)|;
    FallbackPersonalLines(bio);
    PersonalBlockSteps(bio.personalInformation);
    var pb := segs[o..o + 6];
    assert forall j :: 0 <= j < 6 ==> pb[j] == segs[o + j];
  }

  /** When there is a favourite quote it is the last thing drawn: centred,
      in grey, with black restored afterwards. */
  lemma FallbackQuoteStep(bio: BiographyDocument)
    requires Truthy(bio.customization.favoriteQuote)
    ensures var steps := LineSteps(FallbackSegments(bio));
            |steps| > 0 &&
            steps[|steps| - 1] ==
              [MoveDown, FontSize(BodySize), FillColor(QuoteColor),
               Text(bio.customization.favoriteQuote.value, Some(Center), None), FillColor(InkColor)]
  {
    FallbackTail(bio);
    HeadingRoundTrip(bio.customization.favoriteQuote.value);
  }

  // ---------------------------------------------------------------------
  // Title, filename and the route
  // ---------------------------------------------------------------------

  /** The document title: the request's `title` whenever it is given, even
      empty, else the stored title. A title that is not a string cannot be
      turned into a filename, so the route fails (`None`). The final default
      `Autobiography` of the source is never reached, since the stored title
      is always a string. */
  function ResolveTitle(requested: JsonField, stored: string): (r: Option<string>)
    ensures requested.Str? ==> r == Some(requested.text)
    ensures requested.IsNullish() ==> r == Some(stored)
    ensures requested.Other? <==> r.None?
  {
    match requested
    case Str(t) => Some(t)
    case Other => None
    case _ => Some(stored)
  }

  /** The download name: the title with whitespace runs turned into `_`,
      lower-cased, plus `.pdf`. There is no default for an empty title. */
  function Filename(title: string): (name: string)
    ensures |name| >= 4 && name[|name| - 4..] == ".pdf"
    ensures name[..|name| - 4] == FilenameBase(title)
  {
    FilenameBase(title) + ".pdf"
  }

  /** An empty title gives the bare name `.pdf`. */
  lemma EmptyTitleFilename()
    ensures Filename("") == ".pdf"
  {
    assert UnderscoreWhitespaceRuns("") == "";
  }

  datatype PdfResponse =
    | PdfUnauthorized
    | PdfFailed
    | PdfFile(rendering: PdfRendering, contentType: string, filename: string)

  /** `POST /api/export/pdf`: refused without a signed-in user; fails when
      the body is `null` (reading its `story` throws) or when the request's
      title is not a string; otherwise the chosen content is drawn under the
      resolved title and the file is named after that title. */
  function ExportPdf(sessionUserId: Option<string>, bio: BiographyDocument, body: RequestBody): (r: PdfResponse)
    ensures r.PdfUnauthorized? <==> !Truthy(sessionUserId)
    ensures r.PdfFailed? <==> Truthy(sessionUserId) && (body.NullBody? || body.payload.title.Other?)
    ensures r.PdfFile? ==>
              && body.KeyedBody?
              && var title := ResolveTitle(body.payload.title, bio.customization.title).value;
              var content := SelectContent(body.payload, bio.storyDraft, FallbackContent(bio));
              && r.contentType == PdfContentType
              && r.filename == Filename(title)
              && r.rendering == RenderPdf(content, title)
              && r.rendering.titleOps == TitleOps(title)
              && |r.rendering.lineOps| == Count(content, '\n') + 1
  {
    if !Truthy(sessionUserId) then PdfUnauthorized
    else
      match body
      case NullBody => PdfFailed
      case KeyedBody(payload) =>
        match ResolveTitle(payload.title, bio.customization.title)
        case None => PdfFailed
        case Some(title) =>
          var content := SelectContent(payload, bio.storyDraft, FallbackContent(bio));
          PdfFile(RenderPdf(content, title), PdfContentType, Filename(title))
  }
}
