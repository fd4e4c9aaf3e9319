/**
 * The markup escaping applied to plain PDF paragraphs: `&` first, then `<`
 * and `>`, each through str.replace, and the inverse that undoes it.
 */
module Escaping {
  import opened Text

  const Amp: string := "&amp;"
  const Lt: string := "&lt;"
  const Gt: string := "&gt;"
  const AmpChar: string := "&"
  const LtChar: string := "<"
  const GtChar: string := ">"

  /** The escaping of the PDF writer, as three replacements in its order. */
  function Escape(line: string): string {
    Replace(Replace(Replace(line, AmpChar, Amp), LtChar, Lt), GtChar, Gt)
  }

  /** The inverse replacements: `&lt;`, then `&gt;`, then `&amp;`. */
  function Unescape(text: string): string {
    Replace(Replace(Replace(text, Lt, LtChar), Gt, GtChar), Amp, AmpChar)
  }

  /** What one character becomes when `&` becomes `&amp;`, `<` becomes `lt` and `>` becomes `gt`. */
  function Piece(c: char, lt: string, gt: string): string {
    if c == '&' then Amp else if c == '<' then lt else if c == '>' then gt else [c]
  }

  /** Character-by-character escaping, with the text used for `<` and `>` as parameters. */
  function EscapeWith(s: string, lt: string, gt: string): string
    decreases |s|
  {
    if s == [] then [] else Piece(s[0], lt, gt) + EscapeWith(s[1..], lt, gt)
  }

  /** A piece that starts like the pattern but is not it passes through replace unchanged. */
  lemma ReplaceNear(piece: string, rest: string, pat: string, rep: string)
    requires pat != [] && |piece| >= |pat| && piece[..|pat|] != pat
    requires forall k :: 1 <= k < |piece| ==> piece[k] != pat[0]
    ensures Replace(piece + rest, pat, rep) == piece + Replace(rest, pat, rep)
  {
    var s := piece + rest;
    assert s[..|pat|] == piece[..|pat|];
    ReplaceNoMatch(s, pat, rep);
    assert s[1..] == piece[1..] + rest;
    ReplaceSkip(piece[1..], rest, pat, rep);
    assert piece == [piece[0]] + piece[1..];
  }

  /** A piece none of whose characters begins the pattern passes through replace unchanged. */
  lemma ReplaceFar(piece: string, rest: string, pat: string, rep: string)
    requires pat != []
    requires forall k :: 0 <= k < |piece| ==> piece[k] != pat[0]
    ensures Replace(piece + rest, pat, rep) == piece + Replace(rest, pat, rep)
  {
    ReplaceSkip(piece, rest, pat, rep);
  }

  lemma ReplaceExact(rest: string, pat: string, rep: string)
    requires pat != []
    ensures Replace(pat + rest, pat, rep) == rep + Replace(rest, pat, rep)
  {
    ReplaceMatch(rest, pat, rep);
  }

  /** Replacing `&` escapes exactly the ampersands. */
  lemma {:induction false} EscapeAmp(s: string)
    ensures Replace(s, AmpChar, Amp) == EscapeWith(s, LtChar, GtChar)
    decreases |s|
  {
    if s != [] {
      EscapeAmp(s[1..]);
      assert s == [s[0]] + s[1..];
      if s[0] == '&' {
        assert [s[0]] == AmpChar;
        ReplaceExact(s[1..], AmpChar, Amp);
      } else {
        ReplaceFar([s[0]], s[1..], AmpChar, Amp);
      }
    }
  }

  /** Then replacing `<` escapes the less-than signs; the `&amp;` already there hold none. */
  lemma {:induction false} EscapeLt(s: string)
    ensures Replace(EscapeWith(s, LtChar, GtChar), LtChar, Lt) == EscapeWith(s, Lt, GtChar)
    decreases |s|
  {
    if s != [] {
      EscapeLt(s[1..]);
      var c := s[0];
      if c == '<' {
        ReplaceExact(EscapeWith(s[1..], LtChar, GtChar), LtChar, Lt);
      } else {
        ReplaceFar(Piece(c, LtChar, GtChar), EscapeWith(s[1..], LtChar, GtChar), LtChar, Lt);
      }
    }
  }

  /** Then replacing `>` escapes the greater-than signs. */
  lemma {:induction false} EscapeGt(s: string)
    ensures Replace(EscapeWith(s, Lt, GtChar), GtChar, Gt) == EscapeWith(s, Lt, Gt)
    decreases |s|
  {
    if s != [] {
      EscapeGt(s[1..]);
      var c := s[0];
      if c == '>' {
        ReplaceExact(EscapeWith(s[1..], Lt, GtChar), GtChar, Gt);
      } else {
        ReplaceFar(Piece(c, Lt, GtChar), EscapeWith(s[1..], Lt, GtChar), GtChar, Gt);
      }
    }
  }

  /** Each character escaped on its own: `&`, `<` and `>` become their entities. */
  function EscapeChars(line: string): string {
    EscapeWith(line, Lt, Gt)
  }

  /** The three replacements together escape each character on its own. */
  lemma EscapeCharwise(line: string)
    ensures Escape(line) == EscapeChars(line)
  {
    EscapeAmp(line);
    EscapeLt(line);
    EscapeGt(line);
  }

  /** Undoing `&lt;` first: an `&amp;` or `&gt;` is not mistaken for it. */
  lemma {:induction false} UnescapeLt(s: string)
    ensures Replace(EscapeWith(s, Lt, Gt), Lt, LtChar) == EscapeWith(s, LtChar, Gt)
    decreases |s|
  {
    if s != [] {
      UnescapeLt(s[1..]);
      var c := s[0];
      var rest := EscapeWith(s[1..], Lt, Gt);
      if c == '<' {
        ReplaceExact(rest, Lt, LtChar);
      } else if c == '&' {
        assert Amp[..|Lt|][1] == 'a' != Lt[1];
        ReplaceNear(Amp, rest, Lt, LtChar);
      } else if c == '>' {
        assert Gt[..|Lt|][1] == 'g' != Lt[1];
        ReplaceNear(Gt, rest, Lt, LtChar);
      } else {
        ReplaceFar([c], rest, Lt, LtChar);
      }
    }
  }

  /** Then `&gt;`. */
  lemma {:induction false} UnescapeGt(s: string)
    ensures Replace(EscapeWith(s, LtChar, Gt), Gt, GtChar) == EscapeWith(s, LtChar, GtChar)
    decreases |s|
  {
    if s != [] {
      UnescapeGt(s[1..]);
      var c := s[0];
      var rest := EscapeWith(s[1..], LtChar, Gt);
      if c == '>' {
        ReplaceExact(rest, Gt, GtChar);
      } else if c == '&' {
        assert Amp[..|Gt|][1] == 'a' != Gt[1];
        ReplaceNear(Amp, rest, Gt, GtChar);
      } else {
        ReplaceFar(Piece(c, LtChar, Gt), rest, Gt, GtChar);
      }
    }
  }

  /** And `&amp;` last, which leaves the original text. */
  lemma {:induction false} UnescapeAmp(s: string)
    ensures Replace(EscapeWith(s, LtChar, GtChar), Amp, AmpChar) == s
    decreases |s|
  {
    if s != [] {
      UnescapeAmp(s[1..]);
      var c := s[0];
      var rest := EscapeWith(s[1..], LtChar, GtChar);
      if c == '&' {
        ReplaceExact(rest, Amp, AmpChar);
      } else {
        ReplaceFar([c], rest, Amp, AmpChar);
      }
      assert s == [c] + s[1..];
    }
  }

  /** Unescaping an escaped line gives the line back. */
  lemma UnescapeEscape(line: string)
    ensures Unescape(Escape(line)) == line
  {
    EscapeCharwise(line);
    UnescapeLt(line);
    UnescapeGt(line);
    UnescapeAmp(line);
  }

  /** An escaped line holds no raw `<` or `>`. */
  lemma {:induction false} EscapedNoAngles(s: string)
    ensures '<' !in EscapeWith(s, Lt, Gt) && '>' !in EscapeWith(s, Lt, Gt)
    decreases |s|
  {
    if s != [] {
      EscapedNoAngles(s[1..]);
      var p := Piece(s[0], Lt, Gt);
      assert '<' !in p && '>' !in p;
    }
  }

  /** Unescaping a character-wise escaped line gives the line back. */
  lemma UnescapeChars(line: string)
    ensures Unescape(EscapeChars(line)) == line
  {
    UnescapeEscape(line);
    EscapeCharwise(line);
  }

  lemma EscapeNoAngles(line: string)
    ensures '<' !in Escape(line) && '>' !in Escape(line)
  {
    EscapeCharwise(line);
    EscapedNoAngles(line);
  }
}
