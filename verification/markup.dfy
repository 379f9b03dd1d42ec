/** The line-prefix conventions that both export renderers interpret. */
module Markup {
  import opened Text

  /** What a renderer decides a line is. */
  datatype LineClass = Blank | Heading1 | Heading2 | Heading3 | Quote | Starred | Plain

  const Heading1Marker: string := "# "
  const Heading2Marker: string := "## "
  const Heading3Marker: string := "### "
  const QuoteMarker: string := "> "
  const StarsMarker: string := "**"

  /** Each marker test is a test of the line's first characters. */
  lemma MarkerChars(line: string)
    ensures StartsWith(line, Heading1Marker) <==> |line| >= 2 && line[0] == '#' && line[1] == ' '
    ensures StartsWith(line, Heading2Marker) <==>
              |line| >= 3 && line[0] == '#' && line[1] == '#' && line[2] == ' '
    ensures StartsWith(line, Heading3Marker) <==>
              |line| >= 4 && line[0] == '#' && line[1] == '#' && line[2] == '#' && line[3] == ' '
    ensures StartsWith(line, QuoteMarker) <==> |line| >= 2 && line[0] == '>' && line[1] == ' '
    ensures StartsWith(line, StarsMarker) <==> |line| >= 2 && line[0] == '*' && line[1] == '*'
  {
    if |line| >= 2 {
      assert line[..2] == [line[0], line[1]];
    }
    if |line| >= 3 {
      assert line[..3] == [line[0], line[1], line[2]];
    }
    if |line| >= 4 {
      assert line[..4] == [line[0], line[1], line[2], line[3]];
    }
  }

  /** A blank line cannot carry a marker, since every marker starts with a
      visible character. */
  lemma BlankCarriesNoMarker(line: string)
    requires IsBlank(line)
    ensures line == [] || IsWhitespace(line[0])
    ensures !StartsWith(line, Heading1Marker) && !StartsWith(line, Heading2Marker)
    ensures !StartsWith(line, Heading3Marker) && !StartsWith(line, QuoteMarker)
    ensures !StartsWith(line, StarsMarker)
  {
    MarkerChars(line);
    if line != [] {
      assert IsWhitespace(line[0]);
    }
  }

  /** A line that starts with a marker is not blank. */
  lemma MarkedLineNotBlank(line: string)
    ensures (|| StartsWith(line, Heading1Marker) || StartsWith(line, Heading2Marker)
             || StartsWith(line, Heading3Marker) || StartsWith(line, QuoteMarker)
             || StartsWith(line, StarsMarker))
            ==> !IsBlank(line)
  {
    if IsBlank(line) {
      BlankCarriesNoMarker(line);
    }
  }
}
