/**
 * The section splitter of the resume parser: a scan over the lines of the
 * resume that opens a section at every header, gathers the non-blank lines
 * that follow it, and emits a section only when it gathered something.
 *
 * The scan is stated for any header detector `hd` (a line's section name,
 * if it is a header) and any blank-line test `blank`; the parser uses
 * `HeaderOfLine` and `Blank`.
 */
module Sections {
  import opened Wrappers
  import opened Text
  import opened Matching
  import opened Headers
  import opened Bullets

  datatype ResumeSection = ResumeSection(sectionName: string, content: string, bulletPoints: seq<string>)

  /** A section as the scan closes it: its name and its raw content lines. */
  datatype Group = Group(name: string, lines: seq<string>)

  /** The scan's state: the sections emitted so far, the open section's name and its lines. */
  datatype ScanState = ScanState(closed: seq<Group>, current: Option<string>, content: seq<string>)

  const Start: ScanState := ScanState([], None, [])

  /** The parser's header detector: header detection on the stripped line. */
  function HeaderOfLine(line: string): Option<string> {
    IsSectionHeader(Strip(line))
  }

  /** The open section is emitted only when it has a name and gathered a line. */
  function Close(st: ScanState): seq<Group> {
    if Truthy(st.current) && st.content != [] then st.closed + [Group(st.current.value, st.content)]
    else st.closed
  }

  /** `not line.strip()`: the line is blank. */
  predicate Blank(line: string) {
    Strip(line) == ""
  }

  /** One line of the scan. */
  function Step(st: ScanState, line: string, hd: string -> Option<string>, blank: string -> bool): ScanState {
    var h := hd(line);
    if Truthy(h) then ScanState(Close(st), h, [])
    else if Truthy(st.current) && !blank(line) then st.(content := st.content + [line])
    else st
  }

  /** The scan over a list of lines, one line at a time from the first. */
  function Run(st: ScanState, lines: seq<string>, hd: string -> Option<string>, blank: string -> bool): ScanState
    decreases |lines|
  {
    if lines == [] then st
    else Step(Run(st, lines[..|lines| - 1], hd, blank), lines[|lines| - 1], hd, blank)
  }

  /** The groups the scan emits, the last open section included. */
  function Groups(lines: seq<string>, hd: string -> Option<string>, blank: string -> bool): seq<Group> {
    Close(Run(Start, lines, hd, blank))
  }

  // ---------------------------------------------------------------- reference definitions

  /** The names of the headers among the lines, in order. */
  function HeaderNames(lines: seq<string>, hd: string -> Option<string>, blank: string -> bool): seq<string>
    decreases |lines|
  {
    if lines == [] then []
    else
      var h := hd(lines[|lines| - 1]);
      HeaderNames(lines[..|lines| - 1], hd, blank) + (if Truthy(h) then [h.value] else [])
  }

  /** Some line is a header. */
  predicate Opened(lines: seq<string>, hd: string -> Option<string>, blank: string -> bool)
    decreases |lines|
  {
    lines != [] && (Opened(lines[..|lines| - 1], hd, blank) || Truthy(hd(lines[|lines| - 1])))
  }

  /** A line that may become content: not blank and not a header. */
  predicate IsBodyLine(line: string, hd: string -> Option<string>, blank: string -> bool) {
    !blank(line) && !Truthy(hd(line))
  }

  /** The content lines: the body lines that come after the first header, unstripped and in order. */
  function BodyLines(lines: seq<string>, hd: string -> Option<string>, blank: string -> bool): seq<string>
    decreases |lines|
  {
    if lines == [] then []
    else
      var init := lines[..|lines| - 1];
      var last := lines[|lines| - 1];
      BodyLines(init, hd, blank) + (if Opened(init, hd, blank) && IsBodyLine(last, hd, blank) then [last] else [])
  }

  function Flatten(gs: seq<Group>): seq<string>
    decreases |gs|
  {
    if gs == [] then [] else Flatten(gs[..|gs| - 1]) + gs[|gs| - 1].lines
  }

  function Names(gs: seq<Group>): seq<string>
    decreases |gs|
  {
    if gs == [] then [] else Names(gs[..|gs| - 1]) + [gs[|gs| - 1].name]
  }

  predicate GroupOk(g: Group, hd: string -> Option<string>, blank: string -> bool) {
    g.name != "" && g.lines != [] && forall k :: 0 <= k < |g.lines| ==> IsBodyLine(g.lines[k], hd, blank)
  }

  // ---------------------------------------------------------------- the scan's invariants

  /** Every emitted group is named, non-empty and made of body lines; so is the open content. */
  predicate ShapeInv(st: ScanState, hd: string -> Option<string>, blank: string -> bool) {
    (forall i :: 0 <= i < |st.closed| ==> GroupOk(st.closed[i], hd, blank)) &&
    (forall k :: 0 <= k < |st.content| ==> IsBodyLine(st.content[k], hd, blank)) &&
    (!Truthy(st.current) ==> st.content == [] && st.closed == [])
  }

  /** The emitted groups and the open content hold exactly the body lines; a section is open iff a header was seen. */
  predicate ContentInv(st: ScanState, lines: seq<string>, hd: string -> Option<string>, blank: string -> bool) {
    Flatten(st.closed) + st.content == BodyLines(lines, hd, blank) &&
    (Truthy(st.current) <==> Opened(lines, hd, blank))
  }

  /** The emitted names follow the header order, and the open section is the last header. */
  predicate OrderInv(st: ScanState, lines: seq<string>, hd: string -> Option<string>, blank: string -> bool) {
    var hn := HeaderNames(lines, hd, blank);
    IsSubsequence(Names(st.closed), hn) &&
    (Truthy(st.current) ==> hn != [] && hn[|hn| - 1] == st.current.value && IsSubsequence(Names(st.closed), hn[..|hn| - 1]))
  }

  lemma CloseShape(st: ScanState, hd: string -> Option<string>, blank: string -> bool)
    requires ShapeInv(st, hd, blank)
    ensures forall i :: 0 <= i < |Close(st)| ==> GroupOk(Close(st)[i], hd, blank)
  {
  }

  lemma StepShape(st: ScanState, line: string, hd: string -> Option<string>, blank: string -> bool)
    requires ShapeInv(st, hd, blank)
    ensures ShapeInv(Step(st, line, hd, blank), hd, blank)
  {
    CloseShape(st, hd, blank);
  }

  lemma FlattenClose(st: ScanState, hd: string -> Option<string>, blank: string -> bool)
    requires ShapeInv(st, hd, blank)
    ensures Flatten(Close(st)) == Flatten(st.closed) + st.content
  {
    if !(Truthy(st.current) && st.content != []) {
      assert st.content == [];
      assert Flatten(st.closed) + [] == Flatten(st.closed);
    } else {
      var gs := st.closed + [Group(st.current.value, st.content)];
      assert gs[..|gs| - 1] == st.closed;
    }
  }

  lemma StepContent(st: ScanState, lines: seq<string>, line: string, hd: string -> Option<string>, blank: string -> bool)
    requires ShapeInv(st, hd, blank) && ContentInv(st, lines, hd, blank)
    ensures ContentInv(Step(st, line, hd, blank), lines + [line], hd, blank)
  {
    var all := lines + [line];
    assert all[..|all| - 1] == lines;
    assert BodyLines(all, hd, blank) == BodyLines(lines, hd, blank) + (if Opened(lines, hd, blank) && IsBodyLine(line, hd, blank) then [line] else []);
    if Truthy(hd(line)) {
      FlattenClose(st, hd, blank);
      assert Flatten(Close(st)) + [] == Flatten(Close(st));
    } else if Truthy(st.current) && !blank(line) {
      assert Flatten(st.closed) + (st.content + [line]) == (Flatten(st.closed) + st.content) + [line];
    } else {
      assert BodyLines(lines, hd, blank) + [] == BodyLines(lines, hd, blank);
    }
  }

  lemma NamesClose(st: ScanState, lines: seq<string>, hd: string -> Option<string>, blank: string -> bool)
    requires ShapeInv(st, hd, blank) && OrderInv(st, lines, hd, blank)
    ensures IsSubsequence(Names(Close(st)), HeaderNames(lines, hd, blank))
  {
    if Truthy(st.current) && st.content != [] {
      var gs := Close(st);
      assert gs[..|gs| - 1] == st.closed;
      var hn := HeaderNames(lines, hd, blank);
      assert hn == hn[..|hn| - 1] + [hn[|hn| - 1]];
    }
  }

  lemma StepOrder(st: ScanState, lines: seq<string>, line: string, hd: string -> Option<string>, blank: string -> bool)
    requires ShapeInv(st, hd, blank) && OrderInv(st, lines, hd, blank)
    ensures OrderInv(Step(st, line, hd, blank), lines + [line], hd, blank)
  {
    var all := lines + [line];
    assert all[..|all| - 1] == lines;
    var hn := HeaderNames(lines, hd, blank);
    if Truthy(hd(line)) {
      NamesClose(st, lines, hd, blank);
      var hn' := hn + [hd(line).value];
      assert HeaderNames(all, hd, blank) == hn';
      assert hn'[..|hn'| - 1] == hn;
    } else {
      assert HeaderNames(all, hd, blank) == hn + [] == hn;
    }
  }

  /** The three invariants hold after any prefix of the lines. */
  lemma {:induction false} RunInvariants(lines: seq<string>, hd: string -> Option<string>, blank: string -> bool)
    ensures ShapeInv(Run(Start, lines, hd, blank), hd, blank)
    ensures ContentInv(Run(Start, lines, hd, blank), lines, hd, blank)
    ensures OrderInv(Run(Start, lines, hd, blank), lines, hd, blank)
    decreases |lines|
  {
    if lines != [] {
      var init := lines[..|lines| - 1];
      var last := lines[|lines| - 1];
      RunInvariants(init, hd, blank);
      assert lines == init + [last];
      StepShape(Run(Start, init, hd, blank), last, hd, blank);
      StepContent(Run(Start, init, hd, blank), init, last, hd, blank);
      StepOrder(Run(Start, init, hd, blank), init, last, hd, blank);
    }
  }

  // ---------------------------------------------------------------- what the scan emits

  /** Every emitted section has a name and at least one content line, and holds only non-blank, non-header lines. */
  lemma GroupsShape(lines: seq<string>, hd: string -> Option<string>, blank: string -> bool)
    ensures forall i :: 0 <= i < |Groups(lines, hd, blank)| ==> GroupOk(Groups(lines, hd, blank)[i], hd, blank)
  {
    RunInvariants(lines, hd, blank);
    CloseShape(Run(Start, lines, hd, blank), hd, blank);
  }

  /** Nothing dropped or duplicated: the emitted sections hold exactly the body lines after the first header, in order. */
  lemma GroupsContent(lines: seq<string>, hd: string -> Option<string>, blank: string -> bool)
    ensures Flatten(Groups(lines, hd, blank)) == BodyLines(lines, hd, blank)
  {
    RunInvariants(lines, hd, blank);
    FlattenClose(Run(Start, lines, hd, blank), hd, blank);
  }

  /** Sections are emitted in header order: their names are a subsequence of the header names. */
  lemma GroupsOrder(lines: seq<string>, hd: string -> Option<string>, blank: string -> bool)
    ensures IsSubsequence(Names(Groups(lines, hd, blank)), HeaderNames(lines, hd, blank))
  {
    RunInvariants(lines, hd, blank);
    NamesClose(Run(Start, lines, hd, blank), lines, hd, blank);
  }

  lemma {:induction false} FlattenEmpty(gs: seq<Group>, hd: string -> Option<string>, blank: string -> bool)
    requires forall i :: 0 <= i < |gs| ==> GroupOk(gs[i], hd, blank)
    ensures Flatten(gs) == [] <==> gs == []
    decreases |gs|
  {
    if gs != [] {
      assert GroupOk(gs[|gs| - 1], hd, blank);
    }
  }

  /** No section is emitted exactly when there is no body line after a header. */
  lemma GroupsEmpty(lines: seq<string>, hd: string -> Option<string>, blank: string -> bool)
    ensures Groups(lines, hd, blank) == [] <==> BodyLines(lines, hd, blank) == []
  {
    GroupsShape(lines, hd, blank);
    GroupsContent(lines, hd, blank);
    FlattenEmpty(Groups(lines, hd, blank), hd, blank);
  }

  /** Scanning a concatenation is scanning the second part from where the first left off. */
  lemma {:induction false} RunAppend(st: ScanState, a: seq<string>, b: seq<string>, hd: string -> Option<string>, blank: string -> bool)
    ensures Run(st, a + b, hd, blank) == Run(Run(st, a, hd, blank), b, hd, blank)
    decreases |b|
  {
    if b == [] {
      assert a + b == a;
    } else {
      assert (a + b)[..|a + b| - 1] == a + b[..|b| - 1];
      RunAppend(st, a, b[..|b| - 1], hd, blank);
    }
  }

  /** Two headers in a row: the first one's section is empty and is never emitted. */
  lemma AdjacentHeaders(st: ScanState, h1: string, h2: string, hd: string -> Option<string>, blank: string -> bool)
    requires Truthy(hd(h1)) && Truthy(hd(h2))
    ensures Step(Step(st, h1, hd, blank), h2, hd, blank) == Step(st, h2, hd, blank)
  {
  }

  lemma {:induction false} PreambleRun(pre: seq<string>, hd: string -> Option<string>, blank: string -> bool)
    requires forall i :: 0 <= i < |pre| ==> !Truthy(hd(pre[i]))
    ensures Run(Start, pre, hd, blank) == Start
    decreases |pre|
  {
    if pre != [] {
      PreambleRun(pre[..|pre| - 1], hd, blank);
    }
  }

  /** Lines before the first header belong to no section. */
  lemma PreambleDropped(pre: seq<string>, rest: seq<string>, hd: string -> Option<string>, blank: string -> bool)
    requires forall i :: 0 <= i < |pre| ==> !Truthy(hd(pre[i]))
    ensures Groups(pre + rest, hd, blank) == Groups(rest, hd, blank)
  {
    RunAppend(Start, pre, rest, hd, blank);
    PreambleRun(pre, hd, blank);
  }

  // ---------------------------------------------------------------- re-segmenting

  /**
   * The emitted sections written back as lines: each section's header line
   * `hs[i]`, then its content lines.
   */
  function UnsplitWith(hs: seq<string>, gs: seq<Group>): seq<string>
    requires |hs| == |gs|
    decreases |gs|
  {
    if gs == [] then [] else UnsplitWith(hs[..|hs| - 1], gs[..|gs| - 1]) + [hs[|hs| - 1]] + gs[|gs| - 1].lines
  }

  /** A body line under an open section is gathered. */
  lemma StepBody(st: ScanState, line: string, hd: string -> Option<string>, blank: string -> bool)
    requires Truthy(st.current) && IsBodyLine(line, hd, blank)
    ensures Step(st, line, hd, blank) == st.(content := st.content + [line])
  {
  }

  /** A header closes the open section and opens its own. */
  lemma StepHeader(st: ScanState, line: string, hd: string -> Option<string>, blank: string -> bool)
    requires Truthy(hd(line))
    ensures Step(st, line, hd, blank) == ScanState(Close(st), hd(line), [])
  {
  }

  /** The scan over one more line is one more step. */
  lemma RunSnoc(st: ScanState, lines: seq<string>, line: string, hd: string -> Option<string>, blank: string -> bool)
    ensures Run(st, lines + [line], hd, blank) == Step(Run(st, lines, hd, blank), line, hd, blank)
  {
    assert (lines + [line])[..|lines|] == lines;
  }

  /** Every line is a body line, stated line by line from the last. */
  predicate AllBody(lines: seq<string>, hd: string -> Option<string>, blank: string -> bool)
    decreases |lines|
  {
    lines == [] || (AllBody(lines[..|lines| - 1], hd, blank) && IsBodyLine(lines[|lines| - 1], hd, blank))
  }

  lemma {:induction false} AllBodyOf(lines: seq<string>, hd: string -> Option<string>, blank: string -> bool)
    requires forall k :: 0 <= k < |lines| ==> IsBodyLine(lines[k], hd, blank)
    ensures AllBody(lines, hd, blank)
    decreases |lines|
  {
    if lines != [] {
      AllBodyOf(lines[..|lines| - 1], hd, blank);
    }
  }

  /** One more body line under an open section is gathered. */
  lemma RunBodySnoc(st: ScanState, lines: seq<string>, line: string, hd: string -> Option<string>, blank: string -> bool, after: ScanState)
    requires Run(st, lines, hd, blank) == after && Truthy(after.current) && IsBodyLine(line, hd, blank)
    ensures Run(st, lines + [line], hd, blank) == after.(content := after.content + [line])
  {
    RunSnoc(st, lines, line, hd, blank);
    StepBody(after, line, hd, blank);
  }

  /** Body lines under an open section are gathered one after another. */
  lemma {:induction false} RunBody(closed: seq<Group>, name: string, content: seq<string>, lines: seq<string>,
                                   hd: string -> Option<string>, blank: string -> bool)
    requires name != ""
    requires AllBody(lines, hd, blank)
    ensures Run(ScanState(closed, Some(name), content), lines, hd, blank) == ScanState(closed, Some(name), content + lines)
    decreases |lines|
  {
    if lines == [] {
      assert content + lines == content;
    } else {
      var init := lines[..|lines| - 1];
      var last := lines[|lines| - 1];
      RunBody(closed, name, content, init, hd, blank);
      RunBodySnoc(ScanState(closed, Some(name), content), init, last, hd, blank, ScanState(closed, Some(name), content + init));
      assert init + [last] == lines;
      assert (content + init) + [last] == content + lines;
    }
  }

  /** A header line followed by body lines: the open section is closed, and the header's section gathers the lines. */
  lemma RunSection(st: ScanState, prefix: seq<string>, h: string, g: Group, hd: string -> Option<string>, blank: string -> bool)
    requires g.name != "" && hd(h) == Some(g.name)
    requires AllBody(g.lines, hd, blank)
    ensures Run(st, prefix + [h] + g.lines, hd, blank) == ScanState(Close(Run(st, prefix, hd, blank)), Some(g.name), g.lines)
  {
    var before := Run(st, prefix, hd, blank);
    StepHeader(before, h, hd, blank);
    RunSnoc(st, prefix, h, hd, blank);
    RunAppend(st, prefix + [h], g.lines, hd, blank);
    RunBody(Close(before), g.name, [], g.lines, hd, blank);
    assert [] + g.lines == g.lines;
  }

  /**
   * After the written-back sections, the last one is open with all its lines
   * and the others are emitted.
   */
  lemma {:induction false} RunUnsplit(hs: seq<string>, gs: seq<Group>, hd: string -> Option<string>, blank: string -> bool)
    requires gs != [] && |hs| == |gs|
    requires forall i :: 0 <= i < |gs| ==> GroupOk(gs[i], hd, blank)
    requires forall i :: 0 <= i < |gs| ==> hd(hs[i]) == Some(gs[i].name)
    ensures Run(Start, UnsplitWith(hs, gs), hd, blank) == ScanState(gs[..|gs| - 1], Some(gs[|gs| - 1].name), gs[|gs| - 1].lines)
    decreases |gs|
  {
    var init := gs[..|gs| - 1];
    var hinit := hs[..|hs| - 1];
    var g := gs[|gs| - 1];
    if init == [] {
      assert Close(Run(Start, UnsplitWith(hinit, init), hd, blank)) == init;
    } else {
      RunUnsplit(hinit, init, hd, blank);
      assert init[..|init| - 1] + [init[|init| - 1]] == init;
      assert Close(Run(Start, UnsplitWith(hinit, init), hd, blank)) == init;
    }
    assert GroupOk(g, hd, blank);
    AllBodyOf(g.lines, hd, blank);
    RunSection(Start, UnsplitWith(hinit, init), hs[|hs| - 1], g, hd, blank);
  }

  /** Well-formed groups written back under header lines that name them are scanned back into the same groups. */
  lemma UnsplitGroups(hs: seq<string>, gs: seq<Group>, hd: string -> Option<string>, blank: string -> bool)
    requires |hs| == |gs|
    requires forall i :: 0 <= i < |gs| ==> GroupOk(gs[i], hd, blank)
    requires forall i :: 0 <= i < |gs| ==> hd(hs[i]) == Some(gs[i].name)
    ensures Groups(UnsplitWith(hs, gs), hd, blank) == gs
  {
    if gs != [] {
      RunUnsplit(hs, gs, hd, blank);
      assert gs[..|gs| - 1] + [gs[|gs| - 1]] == gs;
    }
  }

  /**
   * Segmenting is idempotent: writing the emitted sections back as lines,
   * each under a header line that names it, and scanning again gives the
   * same sections.
   */
  lemma SegmentIdempotent(lines: seq<string>, hs: seq<string>, hd: string -> Option<string>, blank: string -> bool)
    requires |hs| == |Groups(lines, hd, blank)|
    requires forall i :: 0 <= i < |hs| ==> hd(hs[i]) == Some(Groups(lines, hd, blank)[i].name)
    ensures Groups(UnsplitWith(hs, Groups(lines, hd, blank)), hd, blank) == Groups(lines, hd, blank)
  {
    GroupsShape(lines, hd, blank);
    UnsplitGroups(hs, Groups(lines, hd, blank), hd, blank);
  }

  /** Some line is a header naming `n`. */
  predicate HasHeaderLine(lines: seq<string>, n: string, hd: string -> Option<string>) {
    exists l :: l in lines && hd(l) == Some(n)
  }

  /** Every header name comes from a header line among the lines. */
  lemma {:induction false} HeaderLineOf(lines: seq<string>, n: string, hd: string -> Option<string>, blank: string -> bool)
    requires n in HeaderNames(lines, hd, blank)
    ensures HasHeaderLine(lines, n, hd)
    decreases |lines|
  {
    var init := lines[..|lines| - 1];
    var last := lines[|lines| - 1];
    assert lines == init + [last];
    if n in HeaderNames(init, hd, blank) {
      HeaderLineOf(init, n, hd, blank);
    } else {
      assert hd(last) == Some(n);
      assert last in lines;
    }
  }

  lemma {:induction false} NamesMembers(gs: seq<Group>, i: int)
    requires 0 <= i < |gs|
    ensures gs[i].name in Names(gs)
    decreases |gs|
  {
    if i < |gs| - 1 {
      NamesMembers(gs[..|gs| - 1], i);
    }
  }

  /** One header line per group, each naming its group. */
  lemma {:induction false} ChooseHeaderLines(gs: seq<Group>, lines: seq<string>, hd: string -> Option<string>)
    returns (hs: seq<string>)
    requires forall i :: 0 <= i < |gs| ==> HasHeaderLine(lines, gs[i].name, hd)
    ensures |hs| == |gs|
    ensures forall i :: 0 <= i < |gs| ==> hs[i] in lines && hd(hs[i]) == Some(gs[i].name)
    decreases |gs|
  {
    if gs == [] {
      hs := [];
    } else {
      var init := gs[..|gs| - 1];
      var hinit := ChooseHeaderLines(init, lines, hd);
      assert HasHeaderLine(lines, gs[|gs| - 1].name, hd);
      var l :| l in lines && hd(l) == Some(gs[|gs| - 1].name);
      hs := hinit + [l];
    }
  }

  /**
   * The emitted sections can always be written back under header lines
   * taken from the input, and splitting those lines again gives the same
   * sections.
   */
  lemma SegmentIdempotentOnInput(lines: seq<string>, hd: string -> Option<string>, blank: string -> bool)
    ensures var gs := Groups(lines, hd, blank);
      exists hs :: |hs| == |gs| &&
        (forall i :: 0 <= i < |hs| ==> hs[i] in lines && hd(hs[i]) == Some(gs[i].name)) &&
        Groups(UnsplitWith(hs, gs), hd, blank) == gs
  {
    var gs := Groups(lines, hd, blank);
    GroupsOrder(lines, hd, blank);
    forall i | 0 <= i < |gs|
      ensures HasHeaderLine(lines, gs[i].name, hd)
    {
      NamesMembers(gs, i);
      SubsequenceMembers(Names(gs), HeaderNames(lines, hd, blank), gs[i].name);
      HeaderLineOf(lines, gs[i].name, hd, blank);
    }
    var hs := ChooseHeaderLines(gs, lines, hd);
    SegmentIdempotent(lines, hs, hd, blank);
  }

  /** With the parser's detector, a blank line never changes the scan. */
  lemma BlankLineIgnored(st: ScanState, line: string)
    requires Strip(line) == ""
    ensures Step(st, line, HeaderOfLine, Blank) == st
  {
    EmptyLineNotHeader();
  }

  // ---------------------------------------------------------------- sections

  /** `_create_section`: the lines joined with newlines, and the bullets found in them. */
  function SectionOf(g: Group): ResumeSection {
    var content := Join(g.lines, "\n");
    ResumeSection(g.name, content, BulletsOf(content))
  }

  function MakeSections(gs: seq<Group>): seq<ResumeSection>
    decreases |gs|
  {
    if gs == [] then [] else MakeSections(gs[..|gs| - 1]) + [SectionOf(gs[|gs| - 1])]
  }

  /** The single section used when nothing is emitted: the whole text, unmodified. */
  function FullResume(text: string): ResumeSection {
    ResumeSection("Full Resume", text, BulletsOf(text))
  }

  /** `_split_into_sections` as a value. */
  function SectionsOf(text: string): seq<ResumeSection> {
    var gs := Groups(Split(text, '\n'), HeaderOfLine, Blank);
    if gs == [] then [FullResume(text)] else MakeSections(gs)
  }

  method CreateSection(name: string, lines: seq<string>) returns (section: ResumeSection)
    ensures section == SectionOf(Group(name, lines))
  {
    var content := Join(lines, "\n");
    var bullets := ExtractBulletPoints(content);
    section := ResumeSection(name, content, bullets);
  }

  /**
   * The loop body of `_split_into_sections`: a header closes the open
   * section (emitted if it gathered lines) and opens its own; a non-blank
   * line joins the open section; anything else is skipped.
   */
  method ScanLine(sections: seq<ResumeSection>, currentName: Option<string>, currentContent: seq<string>,
                  ghost closed: seq<Group>, line: string)
    returns (sections': seq<ResumeSection>, currentName': Option<string>, currentContent': seq<string>,
             ghost closed': seq<Group>)
    requires sections == MakeSections(closed)
    ensures ScanState(closed', currentName', currentContent') ==
      Step(ScanState(closed, currentName, currentContent), line, HeaderOfLine, Blank)
    ensures sections' == MakeSections(closed')
  {
    sections', currentName', currentContent', closed' := sections, currentName, currentContent, closed;
    var strippedLine := Strip(line);
    var sectionName := IsSectionHeader(strippedLine);
    if Truthy(sectionName) {
      if Truthy(currentName) && currentContent != [] {
        var section := CreateSection(currentName.value, currentContent);
        closed' := closed + [Group(currentName.value, currentContent)];
        assert closed'[..|closed'| - 1] == closed;
        sections' := sections + [section];
      }
      currentName' := sectionName;
      currentContent' := [];
    } else if Truthy(currentName) {
      if strippedLine != "" {
        currentContent' := currentContent + [line];
      }
    }
  }

  /** The scan loop of `_split_into_sections`, up to the last line. */
  method ScanLines(lines: seq<string>)
    returns (sections: seq<ResumeSection>, currentName: Option<string>, currentContent: seq<string>,
             ghost closed: seq<Group>)
    ensures Run(Start, lines, HeaderOfLine, Blank) == ScanState(closed, currentName, currentContent)
    ensures sections == MakeSections(closed)
  {
    sections := [];
    currentName := None;
    currentContent := [];
    closed := [];
    var i := 0;
    while i < |lines|
      invariant 0 <= i <= |lines|
      invariant Run(Start, lines[..i], HeaderOfLine, Blank) == ScanState(closed, currentName, currentContent)
      invariant sections == MakeSections(closed)
    {
      assert lines[..i + 1][..i] == lines[..i];
      sections, currentName, currentContent, closed := ScanLine(sections, currentName, currentContent, closed, lines[i]);
      i := i + 1;
    }
    assert lines[..|lines|] == lines;
  }

  /** After the loop: the open section is emitted when it has a name and gathered a line. */
  method EmitOpen(sections: seq<ResumeSection>, currentName: Option<string>, currentContent: seq<string>,
                  ghost closed: seq<Group>)
    returns (sections': seq<ResumeSection>)
    requires sections == MakeSections(closed)
    ensures sections' == MakeSections(Close(ScanState(closed, currentName, currentContent)))
  {
    sections' := sections;
    if Truthy(currentName) && currentContent != [] {
      var section := CreateSection(currentName.value, currentContent);
      sections' := sections + [section];
    }
    CloseSections(ScanState(closed, currentName, currentContent));
  }

  /** `_split_into_sections`: the scan over the lines, then the fallback section. */
  method SplitIntoSections(text: string) returns (sections: seq<ResumeSection>)
    ensures sections == SectionsOf(text)
  {
    var lines := Split(text, '\n');
    var currentName, currentContent;
    ghost var closed;
    sections, currentName, currentContent, closed := ScanLines(lines);
    sections := EmitOpen(sections, currentName, currentContent, closed);
    SectionsOfScan(text, lines, Close(ScanState(closed, currentName, currentContent)), sections);
    if sections == [] {
      var bullets := ExtractBulletPoints(text);
      sections := [ResumeSection("Full Resume", text, bullets)];
    }
  }

  /** Emitting the open section adds its section after the others. */
  lemma CloseSections(st: ScanState)
    ensures MakeSections(Close(st)) ==
      MakeSections(st.closed) + (if Truthy(st.current) && st.content != [] then [SectionOf(Group(st.current.value, st.content))] else [])
  {
    if Truthy(st.current) && st.content != [] {
      var gs := Close(st);
      assert gs[..|gs| - 1] == st.closed;
    }
  }

  /** The scan's sections, or the fallback section when the scan emitted none. */
  lemma SectionsOfScan(text: string, lines: seq<string>, gs: seq<Group>, sections: seq<ResumeSection>)
    requires lines == Split(text, '\n') && gs == Groups(lines, HeaderOfLine, Blank)
    requires sections == MakeSections(gs)
    ensures SectionsOf(text) == if sections == [] then [FullResume(text)] else sections
  {
    MakeSectionsLength(gs);
  }

  lemma {:induction false} MakeSectionsLength(gs: seq<Group>)
    ensures |MakeSections(gs)| == |gs|
    decreases |gs|
  {
    if gs != [] {
      MakeSectionsLength(gs[..|gs| - 1]);
    }
  }

  /**
   * The fallback: when no section gathered content the result is one
   * "Full Resume" section holding the unmodified text; otherwise every
   * section is an emitted group, in order.
   */
  lemma SectionsFallback(text: string)
    ensures var body := BodyLines(Split(text, '\n'), HeaderOfLine, Blank);
      (body == [] ==> SectionsOf(text) == [FullResume(text)]) &&
      (body != [] ==> SectionsOf(text) == MakeSections(Groups(Split(text, '\n'), HeaderOfLine, Blank)))
  {
    GroupsEmpty(Split(text, '\n'), HeaderOfLine, Blank);
  }

  /** Joining a group's lines and splitting them again gives the lines back, so a section's bullets are those of its lines. */
  lemma SectionBullets(g: Group)
    requires forall k :: 0 <= k < |g.lines| ==> '\n' !in g.lines[k]
    requires g.lines != []
    ensures SectionOf(g).bulletPoints == BulletsOfLines(g.lines)
    ensures SectionOf(g).content == Join(g.lines, "\n")
  {
    SplitJoin(g.lines, '\n');
  }
}
