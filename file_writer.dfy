/**
 * The resume file writer: the output-format check, the generated output
 * file name, the text and comparison documents, and the PDF story built
 * line by line. The clock is a parameter (the formatted timestamps), and
 * what would be written to disk is returned as a value.
 */
module FileWriter {
  import opened Wrappers
  import opened Text
  import opened Validators
  import opened Escaping

  // ---------------------------------------------------------------- output names

  const DefaultOutputDirectory: string := "./output"
  const NamePrefix: string := "tailored_resume_"
  const MaxTitleLength: nat := 50
  const Markdown: string := "markdown"
  const MarkdownExtension: string := "md"
  const TextFormat: string := "txt"
  const PdfFormat: string := "pdf"

  /** A job-title character kept in the file name: a letter or digit, space, '-' or '_'. */
  predicate KeptInTitle(c: char) {
    IsAlnum(c) || c == ' ' || c == '-' || c == '_'
  }

  /** The title with every other character dropped. */
  function KeepTitleChars(title: string): (r: string)
    ensures forall k :: 0 <= k < |r| ==> KeptInTitle(r[k])
    ensures |r| <= |title|
  {
    if title == [] then []
    else
      var c := title[|title| - 1];
      KeepTitleChars(title[..|title| - 1]) + (if KeptInTitle(c) then [c] else [])
  }

  function SpacesToUnderscores(s: string): (r: string)
    ensures |r| == |s|
    ensures forall k :: 0 <= k < |s| ==> r[k] == if s[k] == ' ' then '_' else s[k]
  {
    seq(|s|, k requires 0 <= k < |s| => if s[k] == ' ' then '_' else s[k])
  }

  /** A character of a safe title: a letter or digit, '-' or '_'. */
  predicate SafeChar(c: char) {
    IsAlnum(c) || c == '-' || c == '_'
  }

  /** The job title made safe for a file name: kept characters, spaces as '_', at most 50 of them. */
  function SafeTitle(title: string): string {
    Take(SpacesToUnderscores(KeepTitleChars(title)), MaxTitleLength)
  }

  /** A safe title holds only letters, digits, '-' and '_', and is at most 50 characters long. */
  lemma SafeTitleShape(title: string)
    ensures |SafeTitle(title)| <= 50
    ensures forall k :: 0 <= k < |SafeTitle(title)| ==> SafeChar(SafeTitle(title)[k])
  {
    var kept := KeepTitleChars(title);
    var under := SpacesToUnderscores(kept);
    forall k | 0 <= k < |SafeTitle(title)|
      ensures SafeChar(SafeTitle(title)[k])
    {
      assert SafeTitle(title)[k] == under[k];
      assert KeptInTitle(kept[k]);
    }
  }

  lemma {:induction false} KeepSafeChars(s: string)
    requires forall k :: 0 <= k < |s| ==> SafeChar(s[k])
    ensures KeepTitleChars(s) == s
    decreases |s|
  {
    if s != [] {
      KeepSafeChars(s[..|s| - 1]);
      assert s == s[..|s| - 1] + [s[|s| - 1]];
    }
  }

  /** Making a safe title safe again changes nothing. */
  lemma SafeTitleIdempotent(title: string)
    ensures SafeTitle(SafeTitle(title)) == SafeTitle(title)
  {
    var t := SafeTitle(title);
    SafeTitleShape(title);
    KeepSafeChars(t);
    assert SpacesToUnderscores(t) == t;
  }

  /** The extension for a format: "md" for "markdown", the format itself otherwise. */
  function Extension(outputFormat: string): (ext: string)
    ensures outputFormat == Markdown ==> ext == MarkdownExtension
    ensures outputFormat != Markdown ==> ext == outputFormat
  {
    if outputFormat == Markdown then MarkdownExtension else outputFormat
  }

  /** `_generate_output_path`'s file name; `timestamp` is the formatted current time. */
  function OutputFileName(outputFormat: string, jobTitle: Option<string>, timestamp: string): string {
    var filename :=
      if Truthy(jobTitle) then NamePrefix + SafeTitle(jobTitle.value) + "_" + timestamp
      else NamePrefix + timestamp;
    filename + "." + Extension(outputFormat)
  }

  /** The name is "tailored_resume_{safe}_{timestamp}.{ext}" with a title and "tailored_resume_{timestamp}.{ext}" without. */
  lemma OutputFileNameShape(outputFormat: string, jobTitle: Option<string>, timestamp: string)
    ensures Truthy(jobTitle) ==>
      (OutputFileName(outputFormat, jobTitle, timestamp)
       == NamePrefix + SafeTitle(jobTitle.value) + "_" + timestamp + "." + Extension(outputFormat))
    ensures !Truthy(jobTitle) ==>
      (OutputFileName(outputFormat, jobTitle, timestamp) == NamePrefix + timestamp + "." + Extension(outputFormat))
    ensures StartsWith(OutputFileName(outputFormat, jobTitle, timestamp), NamePrefix)
    ensures EndsWith(OutputFileName(outputFormat, jobTitle, timestamp), "." + Extension(outputFormat))
  {
    var name := OutputFileName(outputFormat, jobTitle, timestamp);
    var ext := "." + Extension(outputFormat);
    assert name[..|NamePrefix|] == NamePrefix;
    assert name[|name| - |ext|..] == ext;
  }

  /** "markdown" and "md" produce the same file name. */
  lemma MarkdownNamedMd(jobTitle: Option<string>, timestamp: string)
    ensures OutputFileName(Markdown, jobTitle, timestamp) == OutputFileName(MarkdownExtension, jobTitle, timestamp)
  {
  }

  /** `directory / name` as text (pathlib's normalisation of the directory is not modelled). */
  function JoinPath(directory: string, name: string): string {
    if directory == [] then name
    else if directory[|directory| - 1] == '/' then directory + name
    else directory + "/" + name
  }

  // ---------------------------------------------------------------- text documents

  const HeaderOpening: string := "<!-- Generated by Agentic Resume Matcher on "
  const HeaderClosing: string := " -->"
  const BlankLine: string := "\n\n"

  /** `_generate_metadata_header`, with the formatted current time as a parameter. */
  function MetadataHeader(generatedAt: string): string {
    HeaderOpening + generatedAt + HeaderClosing
  }

  /** `_write_text`'s file content: markdown gets the metadata header and a blank line in front. */
  function TextContent(content: string, outputFormat: string, generatedAt: string): string {
    if outputFormat == Markdown || outputFormat == MarkdownExtension then
      MetadataHeader(generatedAt) + BlankLine + content
    else content
  }

  /** Markdown output is the header, a blank line and the content; any other text format is the content alone. */
  lemma TextContentShape(content: string, outputFormat: string, generatedAt: string)
    ensures outputFormat in {Markdown, MarkdownExtension} ==>
      StartsWith(TextContent(content, outputFormat, generatedAt), MetadataHeader(generatedAt) + BlankLine)
    ensures outputFormat !in {Markdown, MarkdownExtension} ==> TextContent(content, outputFormat, generatedAt) == content
    ensures EndsWith(TextContent(content, outputFormat, generatedAt), content)
  {
    var r := TextContent(content, outputFormat, generatedAt);
    var head := MetadataHeader(generatedAt) + BlankLine;
    if outputFormat == Markdown || outputFormat == MarkdownExtension {
      assert r == head + content;
      assert r[..|head|] == head;
      assert r[|r| - |content|..] == content;
    } else {
      assert r[|r| - |content|..] == content;
    }
  }

  // ---------------------------------------------------------------- comparison document

  const ComparisonTitle: string := "# Resume Comparison"
  const GeneratedLabel: string := "Generated: "
  const Rule: string := "---"
  const OriginalHeading: string := "## Original Resume"
  const TailoredHeading: string := "## Tailored Resume"
  const ComparisonPrefix: string := "comparison_"
  const ComparisonExtension: string := ".md"

  /** The comparison's lines, in order. */
  function ComparisonLines(original: string, tailored: string, generatedAt: string): seq<string> {
    [ComparisonTitle, "", GeneratedLabel + generatedAt, "", Rule, "", OriginalHeading, "",
     original, "", Rule, "", TailoredHeading, "", tailored, ""]
  }

  /** `_format_comparison`: the lines joined with line breaks. */
  function FormatComparison(original: string, tailored: string, generatedAt: string): string {
    Join(ComparisonLines(original, tailored, generatedAt), "\n")
  }

  /** Everything in the comparison before the original resume. */
  function ComparisonHead(generatedAt: string): string {
    ComparisonTitle + BlankLine + GeneratedLabel + generatedAt + BlankLine + Rule + BlankLine
    + OriginalHeading + BlankLine
  }

  /** Everything between the original resume and the tailored one. */
  const ComparisonMiddle: string := BlankLine + Rule + BlankLine + TailoredHeading + BlankLine

  /**
   * The comparison spelled out: the title, the time and the original resume
   * under its heading, then the tailored one under its own, and a final
   * line break.
   */
  lemma ComparisonLayout(original: string, tailored: string, generatedAt: string)
    ensures FormatComparison(original, tailored, generatedAt)
      == ComparisonHead(generatedAt) + original + ComparisonMiddle + tailored + "\n"
  {
    var nl := "\n";
    var h := HeadLines(generatedAt);
    ComparisonLinesSplit(original, tailored, generatedAt);
    JoinConcat(h + [original] + MiddleLines, [tailored, ""], nl);
    JoinConcat(h + [original], MiddleLines, nl);
    JoinAppend(h, original, nl);
    JoinTwo(tailored, "", nl);
    HeadLinesJoin(generatedAt);
    MiddleLinesJoin();
    Regroup(Join(h, nl) + nl + original, nl, Join(MiddleLines, nl), tailored);
  }

  /** x + a + m + a + (t + a + "") regrouped as x + (a + m + a) + t + a. */
  lemma Regroup(x: string, a: string, m: string, t: string)
    ensures x + a + m + a + (t + a + "") == x + (a + m + a) + t + a
  {
    assert t + a + "" == t + a;
  }

  /** The comparison's first eight lines, up to the original resume. */
  function HeadLines(generatedAt: string): seq<string> {
    [ComparisonTitle, "", GeneratedLabel + generatedAt, "", Rule, "", OriginalHeading, ""]
  }

  /** The five lines between the two resumes. */
  const MiddleLines: seq<string> := ["", Rule, "", TailoredHeading, ""]

  lemma ComparisonLinesSplit(original: string, tailored: string, generatedAt: string)
    ensures ComparisonLines(original, tailored, generatedAt)
      == HeadLines(generatedAt) + [original] + MiddleLines + [tailored, ""]
  {
  }

  lemma HeadLinesJoin(generatedAt: string)
    ensures Join(HeadLines(generatedAt), "\n") + "\n" == ComparisonHead(generatedAt)
  {
    var nl := "\n";
    JoinGappedFour(ComparisonTitle, GeneratedLabel + generatedAt, Rule, OriginalHeading, nl);
    assert nl + nl == BlankLine;
  }

  /** Four lines, each followed by a blank line, joined; then one more separator. */
  lemma JoinGappedFour(a: string, b: string, c: string, d: string, sep: string)
    ensures Join([a, "", b, "", c, "", d, ""], sep) + sep
      == a + (sep + sep) + b + (sep + sep) + c + (sep + sep) + d + (sep + sep)
  {
    assert [a, "", b, "", c, "", d, ""] == [a, "", b, ""] + [c, "", d, ""];
    JoinConcat([a, "", b, ""], [c, "", d, ""], sep);
    JoinGapped(a, b, sep);
    JoinGapped(c, d, sep);
  }

  lemma MiddleLinesJoin()
    ensures "\n" + Join(MiddleLines, "\n") + "\n" == ComparisonMiddle
  {
    var nl := "\n";
    assert MiddleLines == [""] + [Rule, "", TailoredHeading, ""];
    JoinConcat([""], [Rule, "", TailoredHeading, ""], nl);
    JoinGapped(Rule, TailoredHeading, nl);
    assert nl + nl == BlankLine;
  }

  /** Joining a line, a blank line, another line and a blank line. */
  lemma JoinGapped(a: string, b: string, sep: string)
    ensures Join([a, "", b, ""], sep) == a + (sep + sep) + b + sep
  {
    assert [a, "", b, ""] == [a] + ["", b, ""];
    assert ["", b, ""] == [""] + [b, ""];
    JoinTwo(b, "", sep);
    JoinCons("", [b, ""], sep);
    JoinCons(a, ["", b, ""], sep);
    assert b + sep + "" == b + sep;
    assert "" + sep + (b + sep) == sep + (b + sep);
  }

  lemma JoinTwo(a: string, b: string, sep: string)
    ensures Join([a, b], sep) == a + sep + b
  {
    assert [a, b][1..] == [b];
  }

  // ---------------------------------------------------------------- PDF story

  /** reportlab's inch, in points. */
  const Inch: real := 72.0
  /** The spacer heights: a tenth of an inch after blank lines and headings, a twentieth after bold ones. */
  const LineGap: real := 0.1 * Inch
  const BoldGap: real := 0.05 * Inch
  /** The width reportlab's writer gives every spacer. */
  const SpacerWidth: real := 1.0
  const HeadingMark: string := "# "
  const BoldMark: string := "## "
  const DashMark: string := "- "
  const StarMark: string := "* "
  const BoldOpen: string := "<b>"
  const BoldClose: string := "</b>"
  const BulletMark: string := "\U{2022} "

  /** The two paragraph styles the PDF defines. */
  datatype Style = CustomBody | CustomHeading

  /** The story elements: a spacer of a width and height in points, or a paragraph of markup in a style. */
  datatype Flowable = Spacer(width: real, height: real) | Paragraph(text: string, style: Style)

  /** What a stripped content line is rendered as. */
  datatype LineKind = Blank | Heading | BoldHeading | Bullet | Plain

  /** The first of the PDF writer's checks that a stripped line meets. */
  function Classify(line: string): LineKind {
    if line == [] then Blank
    else if StartsWith(line, HeadingMark) then Heading
    else if StartsWith(line, BoldMark) then BoldHeading
    else if StartsWith(line, DashMark) || StartsWith(line, StarMark) then Bullet
    else Plain
  }

  /** The flowables for one stripped line. */
  function RenderStripped(line: string): (items: seq<Flowable>)
    ensures 1 <= |items| <= 2
    ensures line == [] ==> items == [Spacer(SpacerWidth, LineGap)]
    ensures line != [] ==> items[0].Paragraph? && (|items| == 2 ==> items[1].Spacer?)
  {
    match Classify(line)
    case Blank => [Spacer(SpacerWidth, LineGap)]
    case Heading => [Paragraph(Strip(line[|HeadingMark|..]), CustomHeading), Spacer(SpacerWidth, LineGap)]
    case BoldHeading => [Paragraph(BoldOpen + Strip(line[|BoldMark|..]) + BoldClose, CustomBody), Spacer(SpacerWidth, BoldGap)]
    case Bullet => [Paragraph(BulletMark + Strip(line[|DashMark|..]), CustomBody)]
    case Plain => [Paragraph(EscapeChars(line), CustomBody)]
  }

  /** The flowables for one content line, which is stripped first. */
  function RenderLine(line: string): seq<Flowable> {
    RenderStripped(Strip(line))
  }

  /** The story for a list of lines: each line's flowables, in order. */
  function Story(lines: seq<string>): seq<Flowable> {
    if lines == [] then []
    else Story(lines[..|lines| - 1]) + RenderLine(lines[|lines| - 1])
  }

  /** `_write_pdf`'s loop building the story from the content's lines. */
  method RenderPdf(content: string) returns (story: seq<Flowable>)
    ensures story == Story(Split(content, '\n'))
  {
    var lines := Split(content, '\n');
    story := [];
    var i := 0;
    while i < |lines|
      invariant 0 <= i <= |lines|
      invariant story == Story(lines[..i])
    {
      var line := Strip(lines[i]);
      StoryStep(lines, i);
      ghost var next := Story(lines[..i]) + RenderStripped(line);
      i := i + 1;
      if line == [] {
        story := story + [Spacer(SpacerWidth, LineGap)];
        continue;
      }
      var items;
      if StartsWith(line, HeadingMark) {
        var text := Strip(line[2..]);
        items := [Paragraph(text, CustomHeading), Spacer(SpacerWidth, LineGap)];
        assert items == RenderStripped(line);
      } else if StartsWith(line, BoldMark) {
        var text := Strip(line[3..]);
        items := [Paragraph(BoldOpen + text + BoldClose, CustomBody), Spacer(SpacerWidth, BoldGap)];
        assert items == RenderStripped(line);
      } else if StartsWith(line, DashMark) || StartsWith(line, StarMark) {
        var text := Strip(line[2..]);
        items := [Paragraph(BulletMark + text, CustomBody)];
        assert items == RenderStripped(line);
      } else {
        var text := Escape(line);
        EscapeCharwise(line);
        items := [Paragraph(text, CustomBody)];
        assert items == RenderStripped(line);
      }
      story := story + items;
      assert story == next;
    }
    assert lines[..i] == lines;
  }

  lemma StoryStep(lines: seq<string>, i: nat)
    requires i < |lines|
    ensures Story(lines[..i + 1]) == Story(lines[..i]) + RenderLine(lines[i])
  {
    assert lines[..i + 1][..i] == lines[..i];
  }

  /** A "## " line is a bold heading: the "# " check before it does not catch it. */
  lemma BoldNotShadowed(line: string)
    requires StartsWith(line, BoldMark)
    ensures Classify(line) == BoldHeading
  {
    assert line[1] == BoldMark[1] != HeadingMark[1];
  }

  /** A heading's stripped text comes back unchanged and unescaped, followed by a tenth-inch spacer. */
  lemma HeadingLine(text: string)
    requires text != [] && IsStripped(text, Whitespace)
    ensures RenderStripped(HeadingMark + text) == [Paragraph(text, CustomHeading), Spacer(SpacerWidth, LineGap)]
  {
    var line := HeadingMark + text;
    assert line[..|HeadingMark|] == HeadingMark;
    assert line[|HeadingMark|..] == text;
    StripCharsOfStripped(text, Whitespace);
  }

  /** A "## " heading's stripped text comes back in bold, unescaped, followed by a twentieth-inch spacer. */
  lemma BoldHeadingLine(text: string)
    requires text != [] && IsStripped(text, Whitespace)
    ensures RenderStripped(BoldMark + text)
      == [Paragraph(BoldOpen + text + BoldClose, CustomBody), Spacer(SpacerWidth, BoldGap)]
  {
    var line := BoldMark + text;
    assert line[..|BoldMark|] == BoldMark;
    BoldNotShadowed(line);
    assert line[|BoldMark|..] == text;
    StripCharsOfStripped(text, Whitespace);
  }

  /** A "- " item's stripped text comes back after a bullet sign, unescaped and with no spacer. */
  lemma BulletLine(text: string)
    requires text != [] && IsStripped(text, Whitespace)
    ensures RenderStripped(DashMark + text) == [Paragraph(BulletMark + text, CustomBody)]
  {
    DashClassified(text);
    StripCharsOfStripped(text, Whitespace);
  }

  lemma DashClassified(text: string)
    ensures Classify(DashMark + text) == Bullet
    ensures (DashMark + text)[|DashMark|..] == text
  {
    var line := DashMark + text;
    assert !StartsWith(line, HeadingMark) by {
      assert line[0] == DashMark[0] != HeadingMark[0];
    }
    assert !StartsWith(line, BoldMark) by {
      assert line[0] == DashMark[0] != BoldMark[0];
    }
    assert line[..|DashMark|] == DashMark;
  }

  /**
   * Only a plain line is escaped: its paragraph holds no raw '<' or '>',
   * and unescaping it gives back the stripped line.
   */
  lemma PlainLineEscaped(line: string)
    requires Classify(Strip(line)) == Plain
    ensures |RenderLine(line)| == 1 && RenderLine(line)[0].Paragraph?
    ensures RenderLine(line)[0].style == CustomBody
    ensures '<' !in RenderLine(line)[0].text && '>' !in RenderLine(line)[0].text
    ensures Unescape(RenderLine(line)[0].text) == Strip(line)
  {
    EscapedNoAngles(Strip(line));
    UnescapeChars(Strip(line));
  }

  /** The number of paragraphs in a story. */
  function ParagraphCount(story: seq<Flowable>): nat {
    if story == [] then 0
    else ParagraphCount(story[..|story| - 1]) + (if story[|story| - 1].Paragraph? then 1 else 0)
  }

  /** The number of lines that are not blank once stripped. */
  function NonBlankCount(lines: seq<string>): nat {
    if lines == [] then 0
    else NonBlankCount(lines[..|lines| - 1]) + (if Strip(lines[|lines| - 1]) != [] then 1 else 0)
  }

  lemma {:induction false} ParagraphCountAppend(a: seq<Flowable>, b: seq<Flowable>)
    ensures ParagraphCount(a + b) == ParagraphCount(a) + ParagraphCount(b)
    decreases |b|
  {
    if b != [] {
      assert (a + b)[..|a + b| - 1] == a + b[..|b| - 1];
      ParagraphCountAppend(a, b[..|b| - 1]);
    } else {
      assert a + b == a;
    }
  }

  lemma ParagraphCountOne(x: Flowable)
    ensures ParagraphCount([x]) == if x.Paragraph? then 1 else 0
  {
    assert [x][..0] == [];
  }

  lemma ParagraphCountTwo(x: Flowable, y: Flowable)
    ensures ParagraphCount([x, y]) == (if x.Paragraph? then 1 else 0) + (if y.Paragraph? then 1 else 0)
  {
    assert [x, y][..1] == [x];
    ParagraphCountOne(x);
  }

  /** A blank line gives one spacer and no paragraph; any other line gives exactly one paragraph, first. */
  lemma LineParagraphs(line: string)
    ensures Strip(line) == [] ==> RenderLine(line) == [Spacer(SpacerWidth, LineGap)]
    ensures Strip(line) != [] ==> RenderLine(line)[0].Paragraph? && ParagraphCount(RenderLine(line)) == 1
  {
    StrippedParagraphs(Strip(line));
  }

  lemma StrippedParagraphs(s: string)
    ensures s == [] ==> RenderStripped(s) == [Spacer(SpacerWidth, LineGap)]
    ensures s != [] ==> RenderStripped(s)[0].Paragraph? && ParagraphCount(RenderStripped(s)) == 1
  {
    var items := RenderStripped(s);
    if s == [] {
    } else if |items| == 2 {
      ParagraphCountTwo(items[0], items[1]);
      assert items == [items[0], items[1]];
    } else {
      ParagraphCountOne(items[0]);
      assert items == [items[0]];
    }
  }

  /** The story has one paragraph per non-blank line: no content line is dropped. */
  lemma {:induction false} StoryParagraphs(lines: seq<string>)
    ensures ParagraphCount(Story(lines)) == NonBlankCount(lines)
    ensures |lines| <= |Story(lines)| <= 2 * |lines|
    decreases |lines|
  {
    if lines != [] {
      var init := lines[..|lines| - 1];
      var last := lines[|lines| - 1];
      StoryParagraphs(init);
      ParagraphCountAppend(Story(init), RenderLine(last));
      LineParagraphs(last);
    }
  }

  /** The story of a concatenation of line lists is the concatenation of their stories. */
  lemma {:induction false} StoryConcat(a: seq<string>, b: seq<string>)
    ensures Story(a + b) == Story(a) + Story(b)
    decreases |b|
  {
    if b != [] {
      assert (a + b)[..|a + b| - 1] == a + b[..|b| - 1];
      StoryConcat(a, b[..|b| - 1]);
    } else {
      assert a + b == a;
    }
  }

  // ---------------------------------------------------------------- the writer

  const UnsupportedOutput: string := "Unsupported output format: "
  const SupportedLabel: string := ". Supported: "
  const ListSeparator: string := ", "

  /** The ValueError `write_file` raises for a (lower-cased) format it does not support. */
  function UnsupportedOutputError(outputFormat: string): Exception {
    ValueError(UnsupportedOutput + outputFormat + SupportedLabel + Join(SupportedFormats, ListSeparator))
  }

  /** What a write would put on disk: the text of a text file or the story of a PDF. */
  datatype Document = TextFile(text: string) | PdfFile(story: seq<Flowable>)

  /** A completed write: the path returned and the document written there. */
  datatype Written = Written(path: string, document: Document)

  /** `FileWriterTool`; creating the output directory is not modelled. */
  class FileWriterTool {
    const outputDirectory: string

    constructor(outputDirectory: string)
      ensures this.outputDirectory == outputDirectory
    {
      this.outputDirectory := outputDirectory;
    }

    /** `_generate_output_path`: the generated name inside the output directory. */
    function OutputPath(outputFormat: string, jobTitle: Option<string>, timestamp: string): (path: string)
      ensures EndsWith(path, OutputFileName(outputFormat, jobTitle, timestamp))
    {
      var name := OutputFileName(outputFormat, jobTitle, timestamp);
      var path := JoinPath(outputDirectory, name);
      assert path[|path| - |name|..] == name;
      path
    }

    /**
     * `write_file`: the format is lower-cased and checked before anything
     * else; the path is the custom one when given, else a generated one;
     * a PDF gets the rendered story, any other format the text content.
     */
    method WriteFile(content: string, outputFormat: string, customPath: Option<string>,
                     jobTitle: Option<string>, timestamp: string, generatedAt: string)
      returns (r: Result<Written>)
      ensures Lower(outputFormat) !in SupportedFormats ==> r == Err(UnsupportedOutputError(Lower(outputFormat)))
      ensures Lower(outputFormat) in SupportedFormats ==> r.Ok?
      ensures r.Ok? ==>
        (r.value.path == if Truthy(customPath) then customPath.value else OutputPath(Lower(outputFormat), jobTitle, timestamp))
      ensures r.Ok? && Lower(outputFormat) == PdfFormat ==>
        r.value.document == PdfFile(Story(Split(content, '\n')))
      ensures r.Ok? && Lower(outputFormat) != PdfFormat ==>
        r.value.document == TextFile(TextContent(content, Lower(outputFormat), generatedAt))
    {
      var format := Lower(outputFormat);
      if format !in SupportedFormats {
        return Err(UnsupportedOutputError(format));
      }
      var path;
      if Truthy(customPath) {
        path := customPath.value;
      } else {
        path := OutputPath(format, jobTitle, timestamp);
      }
      var document;
      if format == PdfFormat {
        var story := RenderPdf(content);
        document := PdfFile(story);
      } else {
        document := TextFile(TextContent(content, format, generatedAt));
      }
      r := Ok(Written(path, document));
    }

    /** `write_comparison`: the comparison document, at the given path or at "comparison_{timestamp}.md". */
    method WriteComparison(original: string, tailored: string, outputPath: Option<string>,
                           timestamp: string, generatedAt: string)
      returns (w: Written)
      ensures w.path == if Truthy(outputPath) then outputPath.value
                        else JoinPath(outputDirectory, ComparisonPrefix + timestamp + ComparisonExtension)
      ensures w.document == TextFile(FormatComparison(original, tailored, generatedAt))
    {
      var content := FormatComparison(original, tailored, generatedAt);
      var path;
      if !Truthy(outputPath) {
        path := JoinPath(outputDirectory, ComparisonPrefix + timestamp + ComparisonExtension);
      } else {
        path := outputPath.value;
      }
      w := Written(path, TextFile(content));
    }
  }

  /**
   * For a format with no surrounding white space, `write_file` accepts
   * exactly the formats the output-format validator accepts.
   */
  lemma WriterAgreesWithValidator(outputFormat: string)
    requires IsStripped(Lower(outputFormat), Whitespace)
    ensures Lower(outputFormat) in SupportedFormats <==> ValidateOutputFormat(outputFormat).Ok?
  {
    StrippedIn(Lower(outputFormat), SupportedFormats);
  }
}
