/** The dashboard's export-and-share panel: the name a download is saved
    under, the body of an export request, the body of the share toggle and
    the share link that is copied. */
module ExportPanel {
  import opened Wrappers
  import opened Text
  import opened Biography
  import opened ExportRequest
  import DocxExport
  import PdfExport

  datatype ExportType = Pdf | Docx

  /** The file extension, dot included, for each export type. */
  function Extension(t: ExportType): string {
    match t
    case Pdf => ".pdf"
    case Docx => ".docx"
  }

  /** The name the browser saves a download under: the title (or
      `autobiography` when it is empty) with whitespace runs turned into `_`
      and lower-cased, then the type's extension. */
  function ClientFilename(title: string, t: ExportType): (name: string)
    ensures var n := |Extension(t)|;
            && |name| > n && name[|name| - n..] == Extension(t)
            && NoWhitespace(name[..|name| - n])
            && (title != "" ==> name[..|name| - n] == FilenameBase(title))
  {
    FilenameBase(Or(title, "autobiography")) + Extension(t)
  }

  /** An untitled record downloads as `autobiography.pdf` or
      `autobiography.docx`. */
  lemma UntitledClientFilename(t: ExportType)
    ensures ClientFilename("", t) == "autobiography" + Extension(t)
  {
    DefaultNameBase();
  }

  /** The saved name agrees with the name the word-processor route gives
      for every title, and with the PDF route's for every non-empty one;
      for an empty title the PDF route says `.pdf` while the browser saves
      `autobiography.pdf`. */
  lemma ClientFilenameMatchesRoutes(title: string)
    ensures ClientFilename(title, Docx) == DocxExport.Filename(title)
    ensures title != "" ==> ClientFilename(title, Pdf) == PdfExport.Filename(title)
    ensures title == "" ==> ClientFilename(title, Pdf) != PdfExport.Filename(title)
  {
    if title == "" {
      UntitledClientFilename(Pdf);
      PdfExport.EmptyTitleFilename();
      assert |ClientFilename(title, Pdf)| > |".pdf"|;
    }
  }

  /** The export request body: the stored draft and the stored title. A
      missing draft is dropped from the JSON text, so the route sees no
      `story` key at all. */
  function ExportBody(bio: BiographyDocument): (payload: ExportPayload)
    ensures payload.title == Str(bio.customization.title)
    ensures bio.storyDraft.None? <==> payload.story.Absent?
    ensures bio.storyDraft.Some? ==> payload.story == Str(bio.storyDraft.value)
  {
    ExportPayload(
      match bio.storyDraft
      case None => Absent
      case Some(s) => Str(s),
      Str(bio.customization.title))
  }

  /** Exporting from the panel renders the stored draft whenever one is
      stored, even an empty one, and the record's fallback otherwise. */
  lemma ExportRendersDraft(bio: BiographyDocument, fallback: string)
    ensures SelectContent(ExportBody(bio), bio.storyDraft, fallback) == bio.storyDraft.GetOr(fallback)
  {
  }

  /** For a signed-in user the PDF route titles the document with the
      record's title and names the file from it, exactly as the panel
      does when the title is not empty. */
  lemma PanelPdfExport(sessionUserId: Option<string>, bio: BiographyDocument)
    requires Truthy(sessionUserId)
    ensures var r := PdfExport.ExportPdf(sessionUserId, bio, KeyedBody(ExportBody(bio)));
            && r.PdfFile?
            && r.rendering.titleOps == PdfExport.TitleOps(bio.customization.title)
            && r.filename == PdfExport.Filename(bio.customization.title)
            && (bio.customization.title != "" ==> r.filename == ClientFilename(bio.customization.title, Pdf))
  {
    ClientFilenameMatchesRoutes(bio.customization.title);
  }

  /** For a signed-in user the word-processor route names the file exactly
      as the panel saves it, whatever the title. */
  lemma PanelDocxExport(sessionUserId: Option<string>, bio: BiographyDocument)
    requires Truthy(sessionUserId)
    ensures var r := DocxExport.ExportDocx(sessionUserId, bio, KeyedBody(ExportBody(bio)));
            r.DocxFile? && r.filename == ClientFilename(bio.customization.title, Docx)
  {
    ClientFilenameMatchesRoutes(bio.customization.title);
  }

  /** The body of the share toggle. */
  datatype ToggleBody = ToggleBody(isPublic: bool, publicId: Option<string>)

  /** The toggle asks for the opposite visibility and passes the existing
      public id through untouched. */
  function TogglePayload(bio: BiographyDocument): (r: ToggleBody)
    ensures r.isPublic != bio.isPublic
    ensures r.publicId == bio.publicId
  {
    ToggleBody(!bio.isPublic, bio.publicId)
  }

  /** Applying the requested visibility and toggling again asks for the
      original visibility. */
  lemma ToggleTwice(bio: BiographyDocument)
    ensures var once := bio.(isPublic := TogglePayload(bio).isPublic);
            TogglePayload(once) == ToggleBody(bio.isPublic, bio.publicId)
  {
  }

  const SharePath := "/share/"

  /** The link copied by "copy share link": nothing unless the record is
      public and has a non-empty public id; otherwise the page origin, the
      share path and the id. */
  function ShareLink(bio: BiographyDocument, origin: string): (r: Option<string>)
    ensures r.Some? <==> bio.isPublic && Truthy(bio.publicId)
    ensures r.Some? ==>
              && |r.value| == |origin| + |SharePath| + |bio.publicId.value|
              && r.value[..|origin|] == origin
              && r.value[|origin|..|origin| + |SharePath|] == SharePath
              && r.value[|origin| + |SharePath|..] == bio.publicId.value
  {
    if !bio.isPublic || !Truthy(bio.publicId) then None
    else Some(origin + SharePath + bio.publicId.value)
  }

  /** On one origin, two public records get the same link exactly when they
      have the same public id. */
  lemma ShareLinksDistinct(a: BiographyDocument, b: BiographyDocument, origin: string)
    requires ShareLink(a, origin).Some? && ShareLink(b, origin).Some?
    ensures ShareLink(a, origin) == ShareLink(b, origin) <==> a.publicId == b.publicId
  {
  }
}
