/** How the two export routes relate: they read lines the same way except
    for the PDF renderer's `**` case, and they name files alike except for
    an empty title. */
module ExportCompare {
  import opened Text
  import opened Markup
  import DocxExport
  import PdfExport

  /** Outside `**` lines both renderers put every line in the same class; a
      `**` line has its own class for the PDF renderer, which draws it as
      size-12 text with every `**` removed, and is plain text for the word
      processor. */
  lemma ClassifiersAgree(line: string)
    ensures !StartsWith(line, StarsMarker) ==> DocxExport.Classify(line) == PdfExport.Classify(line)
    ensures StartsWith(line, StarsMarker) ==>
              PdfExport.Classify(line) == Starred && DocxExport.Classify(line) == Plain
  {
    MarkerChars(line);
    MarkedLineNotBlank(line);
  }

  /** For a non-empty title both routes derive the same file name up to the
      extension; an untitled record is `autobiography.docx` but `.pdf`. */
  lemma FilenamesAgree(title: string)
    ensures title != "" ==>
              DocxExport.Filename(title)[..|DocxExport.Filename(title)| - 5]
              == PdfExport.Filename(title)[..|PdfExport.Filename(title)| - 4]
    ensures title == "" ==>
              DocxExport.Filename(title) == "autobiography" + ".docx" && PdfExport.Filename(title) == ".pdf"
  {
    if title == "" {
      DocxExport.UntitledFilename();
      PdfExport.EmptyTitleFilename();
    } else {
      var d := DocxExport.Filename(title);
      var p := PdfExport.Filename(title);
      assert d[..|d| - 5] == FilenameBase(title) == p[..|p| - 4];
    }
  }
}
