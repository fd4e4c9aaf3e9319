/**
 * Bullet extraction of the resume parser: three line shapes, tried in order,
 * each a marker after optional indentation, then whitespace, then the text.
 */
module Bullets {
  import opened Wrappers
  import opened Text

  /** The three line shapes a bullet may take, tried in this order. */
  datatype BulletPattern = SymbolBullet | AsteriskBullet | NumberedBullet

  const BulletPatterns: seq<BulletPattern> := [SymbolBullet, AsteriskBullet, NumberedBullet]

  /** The bullet glyphs of the first pattern's character class. */
  predicate IsBulletSymbol(c: char) {
    c == '\U{2022}' || c == '\U{25CF}' || c == '\U{25A0}' || c == '\U{25AA}' ||
    c == '\U{25B8}' || c == '\U{25BA}' || c == '\U{2192}' || c == '-'
  }

  /** The number of leading ASCII digits. */
  function LeadingDigits(s: string): (n: nat)
    ensures n <= |s|
    ensures n > 0 ==> IsDigit(s[0])
    ensures n < |s| ==> !IsDigit(s[n])
    decreases |s|
  {
    if s != [] && IsDigit(s[0]) then 1 + LeadingDigits(s[1..]) else 0
  }

  /**
   * The length of the pattern's marker at the start of `rest` (the line
   * after its indentation), or 0 when the pattern's marker is not there:
   * one glyph, one '*', or digits followed by '.'.
   */
  function MarkerLength(p: BulletPattern, rest: string): (k: nat)
    ensures k <= |rest|
    ensures k > 0 && p == SymbolBullet ==> k == 1 && IsBulletSymbol(rest[0])
    ensures k > 0 && p == AsteriskBullet ==> k == 1 && rest[0] == '*'
    ensures k > 0 && p == NumberedBullet ==> k >= 2 && IsDigit(rest[0]) && rest[k - 1] == '.'
  {
    match p
    case SymbolBullet => if rest != [] && IsBulletSymbol(rest[0]) then 1 else 0
    case AsteriskBullet => if rest != [] && rest[0] == '*' then 1 else 0
    case NumberedBullet =>
      var d := LeadingDigits(rest);
      if 1 <= d < |rest| && rest[d] == '.' then d + 1 else 0
  }

  /**
   * `\s+(.+)$` on what follows the marker: at least one whitespace
   * character, then a non-empty remainder. The greedy `\s+` gives back one
   * character when the whitespace runs to the end of the line.
   */
  function CaptureAfterMarker(t: string): (r: Option<string>)
    ensures r.Some? <==> |t| >= 2 && IsSpace(t[0])
    ensures r.Some? ==> r.value != [] && |r.value| <= |t| && r.value == t[|t| - |r.value|..]
  {
    var n := LeadingSpaces(t);
    if n == 0 then None
    else if n < |t| then Some(t[n..])
    else if n >= 2 then Some(t[n - 1..])
    else None
  }

  /** `re.match(pattern, line)` for one bullet pattern, returning group 1: a non-empty suffix of the line. */
  function MatchBullet(p: BulletPattern, line: string): (r: Option<string>)
    ensures r.Some? ==> r.value != [] && |r.value| <= |line| && r.value == line[|line| - |r.value|..]
  {
    var n := LeadingSpaces(line);
    var k := MarkerLength(p, line[n..]);
    if k == 0 then None
    else
      assert line[n..][k..] == line[n + k..];
      CaptureAfterMarker(line[n + k..])
  }

  /** The first of the patterns that matches the line, with its capture stripped. */
  function FirstBullet(line: string, patterns: seq<BulletPattern>): Option<string>
    decreases |patterns|
  {
    if patterns == [] then None
    else
      var m := MatchBullet(patterns[0], line);
      if m.Some? then Some(Strip(m.value)) else FirstBullet(line, patterns[1..])
  }

  function LineBullet(line: string): Option<string> {
    FirstBullet(line, BulletPatterns)
  }

  /** For each element in order, the value `f` finds in it, if any. */
  function Collect<T, U>(xs: seq<T>, f: T -> Option<U>): seq<U>
    decreases |xs|
  {
    if xs == [] then []
    else
      var b := f(xs[|xs| - 1]);
      Collect(xs[..|xs| - 1], f) + (if b.Some? then [b.value] else [])
  }

  /** The bullets of a list of lines. */
  function BulletsOfLines(lines: seq<string>): seq<string> {
    Collect(lines, LineBullet)
  }

  function BulletsOf(text: string): seq<string> {
    BulletsOfLines(Split(text, '\n'))
  }

  /** `_extract_bullet_points`: for each line, the first matching pattern contributes its stripped capture. */
  method ExtractBulletPoints(text: string) returns (bullets: seq<string>)
    ensures bullets == BulletsOf(text)
  {
    var lines := Split(text, '\n');
    bullets := [];
    var i := 0;
    while i < |lines|
      invariant 0 <= i <= |lines|
      invariant bullets == Collect(lines[..i], LineBullet)
    {
      var found := TryPatterns(lines[i]);
      if found.Some? {
        bullets := bullets + [found.value];
      }
      assert lines[..i + 1][..i] == lines[..i];
      i := i + 1;
    }
    assert lines[..|lines|] == lines;
  }

  /** The inner loop over the patterns: the first that matches gives the stripped capture. */
  method TryPatterns(line: string) returns (found: Option<string>)
    ensures found == LineBullet(line)
  {
    var j := 0;
    while j < |BulletPatterns|
      invariant 0 <= j <= |BulletPatterns|
      invariant FirstBullet(line, BulletPatterns[j..]) == LineBullet(line)
    {
      var m := MatchBullet(BulletPatterns[j], line);
      if m.Some? {
        return Some(Strip(m.value));
      }
      assert BulletPatterns[j..][1..] == BulletPatterns[j + 1..];
      j := j + 1;
    }
    return None;
  }

  /** Collecting distributes over concatenation: earlier elements' values come first. */
  lemma {:induction false} CollectAppend<T, U>(a: seq<T>, b: seq<T>, f: T -> Option<U>)
    ensures Collect(a + b, f) == Collect(a, f) + Collect(b, f)
    decreases |b|
  {
    if b == [] {
      assert a + b == a;
    } else {
      assert (a + b)[..|a + b| - 1] == a + b[..|b| - 1];
      CollectAppend(a, b[..|b| - 1], f);
    }
  }

  /** At most one value per element, and one for every element exactly when `f` finds one in each. */
  lemma {:induction false} CollectCount<T, U>(xs: seq<T>, f: T -> Option<U>)
    ensures |Collect(xs, f)| <= |xs|
    ensures |Collect(xs, f)| == |xs| <==> forall i :: 0 <= i < |xs| ==> f(xs[i]).Some?
    decreases |xs|
  {
    if xs != [] {
      var init := xs[..|xs| - 1];
      CollectCount(init, f);
      if f(xs[|xs| - 1]).Some? {
        if forall i :: 0 <= i < |init| ==> f(init[i]).Some? {
          forall i | 0 <= i < |xs| ensures f(xs[i]).Some? {
            if i < |init| { assert xs[i] == init[i]; }
          }
        } else {
          var i :| 0 <= i < |init| && f(init[i]).None?;
          assert xs[i] == init[i];
        }
      }
    }
  }

  /** Every collected value is found in some element. */
  lemma {:induction false} CollectMembers<T, U>(xs: seq<T>, f: T -> Option<U>, y: U)
    requires y in Collect(xs, f)
    ensures exists i :: 0 <= i < |xs| && f(xs[i]) == Some(y)
    decreases |xs|
  {
    var init := xs[..|xs| - 1];
    var b := f(xs[|xs| - 1]);
    if y in Collect(init, f) {
      CollectMembers(init, f, y);
      var i :| 0 <= i < |init| && f(init[i]) == Some(y);
      assert xs[i] == init[i];
    } else {
      assert b == Some(y);
    }
  }

  /** Bullets accumulate line by line, in line order. */
  lemma BulletsOfLinesAppend(a: seq<string>, b: seq<string>)
    ensures BulletsOfLines(a + b) == BulletsOfLines(a) + BulletsOfLines(b)
  {
    CollectAppend(a, b, LineBullet);
  }

  /** At most one bullet per line, and one for every line exactly when every line is a bullet line. */
  lemma BulletsOfLinesCount(lines: seq<string>)
    ensures |BulletsOfLines(lines)| <= |lines|
    ensures |BulletsOfLines(lines)| == |lines| <==> forall i :: 0 <= i < |lines| ==> LineBullet(lines[i]).Some?
  {
    CollectCount(lines, LineBullet);
  }

  /** The first pattern that matches, written out for the fixed order of the three patterns. */
  lemma LineBulletCases(line: string)
    ensures LineBullet(line) ==
      if MatchBullet(SymbolBullet, line).Some? then Some(Strip(MatchBullet(SymbolBullet, line).value))
      else if MatchBullet(AsteriskBullet, line).Some? then Some(Strip(MatchBullet(AsteriskBullet, line).value))
      else if MatchBullet(NumberedBullet, line).Some? then Some(Strip(MatchBullet(NumberedBullet, line).value))
      else None
  {
    assert BulletPatterns[1..] == [AsteriskBullet, NumberedBullet];
    assert BulletPatterns[1..][1..] == [NumberedBullet];
    assert BulletPatterns[1..][1..][1..] == [];
  }

  /** The first non-blank character decides which pattern can match: the three patterns exclude each other. */
  lemma BulletPatternsExclusive(line: string)
    ensures !(MatchBullet(SymbolBullet, line).Some? && MatchBullet(AsteriskBullet, line).Some?)
    ensures !(MatchBullet(SymbolBullet, line).Some? && MatchBullet(NumberedBullet, line).Some?)
    ensures !(MatchBullet(AsteriskBullet, line).Some? && MatchBullet(NumberedBullet, line).Some?)
  {
  }

  /** Stripping a suffix of the line leaves a stripped piece of the line. */
  lemma StrippedPiece(line: string, m: string)
    requires |m| <= |line| && m == line[|line| - |m|..]
    ensures IsStripped(Strip(m), Whitespace) && Contains(line, Strip(m))
  {
    assert Strip(m) == StripChars(m, Whitespace);
    StripContained(m);
    SuffixContained(line, m);
    ContainsTransitive(line, m, Strip(m));
  }

  /**
   * A line yields a bullet exactly when one of the three patterns matches
   * it, and the bullet is then a stripped piece of the line.
   */
  lemma LineBulletShape(line: string)
    ensures LineBullet(line).Some? <==>
      MatchBullet(SymbolBullet, line).Some? || MatchBullet(AsteriskBullet, line).Some? || MatchBullet(NumberedBullet, line).Some?
    ensures LineBullet(line).Some? ==>
      IsStripped(LineBullet(line).value, Whitespace) && Contains(line, LineBullet(line).value)
  {
    LineBulletCases(line);
    var p := if MatchBullet(SymbolBullet, line).Some? then SymbolBullet
      else if MatchBullet(AsteriskBullet, line).Some? then AsteriskBullet
      else NumberedBullet;
    var m := MatchBullet(p, line);
    if m.Some? {
      StrippedPiece(line, m.value);
    }
  }

  /** A glyph, one space and text not starting with whitespace: the capture is the text. */
  lemma SymbolBulletCapture(c: char, b: string)
    requires IsBulletSymbol(c) && b != [] && !IsSpace(b[0])
    ensures MatchBullet(SymbolBullet, [c, ' '] + b) == Some(b)
  {
    var line := [c, ' '] + b;
    assert !IsSpace(c);
    assert LeadingSpaces(line) == 0;
    assert line[0..] == line;
    assert MarkerLength(SymbolBullet, line) == 1;
    var t := line[1..];
    assert t == [' '] + b;
    assert t[1..] == b;
    assert LeadingSpaces(t[1..]) == 0;
    assert LeadingSpaces(t) == 1;
  }

  lemma DashBulletCapture()
    ensures MatchBullet(SymbolBullet, "- Led a team of 5 engineers") == Some("Led a team of 5 engineers")
  {
    assert "- Led a team of 5 engineers" == ['-', ' '] + "Led a team of 5 engineers";
    SymbolBulletCapture('-', "Led a team of 5 engineers");
  }

  lemma DashBulletStripped()
    ensures Strip("Led a team of 5 engineers") == "Led a team of 5 engineers"
  {
    StripCharsOfStripped("Led a team of 5 engineers", Whitespace);
  }

  /** The source's own example: "- Led a team of 5 engineers" yields "Led a team of 5 engineers". */
  lemma DashBulletExample()
    ensures LineBullet("- Led a team of 5 engineers") == Some("Led a team of 5 engineers")
  {
    LineBulletCases("- Led a team of 5 engineers");
    DashBulletCapture();
    DashBulletStripped();
  }
}
