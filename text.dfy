/**
 * ASCII models of the Python string built-ins the resume tools call:
 * lower/upper, isupper/istitle/title, strip/lstrip/rstrip, split/join,
 * the `in` substring test, prefix slicing and str.replace.
 * Unicode case mapping is not modelled: only 'A'..'Z' and 'a'..'z' are cased.
 */
module Text {

  /** The ASCII characters for which Python's str.isspace() holds. */
  const Whitespace: set<char> :=
    {' ', '\t', '\n', '\r', '\U{000B}', '\U{000C}', '\U{001C}', '\U{001D}', '\U{001E}', '\U{001F}'}

  predicate IsSpace(c: char) { c in Whitespace }
  predicate IsUpperChar(c: char) { 'A' <= c <= 'Z' }
  predicate IsLowerChar(c: char) { 'a' <= c <= 'z' }
  predicate IsLetter(c: char) { IsUpperChar(c) || IsLowerChar(c) }
  predicate IsDigit(c: char) { '0' <= c <= '9' }
  predicate IsAlnum(c: char) { IsLetter(c) || IsDigit(c) }

  function LowerChar(c: char): (r: char)
    ensures !IsUpperChar(r)
    ensures IsLetter(r) == IsLetter(c)
  {
    if IsUpperChar(c) then (c as int + 32) as char else c
  }

  function UpperChar(c: char): (r: char)
    ensures !IsLowerChar(r)
    ensures IsLetter(r) == IsLetter(c)
  {
    if IsLowerChar(c) then (c as int - 32) as char else c
  }

  /** str.lower() */
  function Lower(s: string): (r: string)
    ensures |r| == |s|
    ensures forall i :: 0 <= i < |s| ==> r[i] == LowerChar(s[i])
  {
    seq(|s|, i requires 0 <= i < |s| => LowerChar(s[i]))
  }

  /** str.upper() */
  function Upper(s: string): (r: string)
    ensures |r| == |s|
    ensures forall i :: 0 <= i < |s| ==> r[i] == UpperChar(s[i])
  {
    seq(|s|, i requires 0 <= i < |s| => UpperChar(s[i]))
  }

  lemma LowerAppend(s: string, t: string)
    ensures Lower(s + t) == Lower(s) + Lower(t)
  {
    assert forall i :: 0 <= i < |s + t| ==> Lower(s + t)[i] == (Lower(s) + Lower(t))[i];
  }

  lemma LowerOfUpper(s: string)
    ensures Lower(Upper(s)) == Lower(s)
  {
    assert forall i :: 0 <= i < |s| ==> Lower(Upper(s))[i] == Lower(s)[i];
  }

  lemma LowerIdempotent(s: string)
    ensures Lower(Lower(s)) == Lower(s)
  {
    assert forall i :: 0 <= i < |s| ==> Lower(Lower(s))[i] == Lower(s)[i];
  }

  /** Some character of s is cased (a letter). */
  predicate HasCased(s: string) {
    exists i | 0 <= i < |s| :: IsLetter(s[i])
  }

  predicate HasDigit(s: string) {
    exists i | 0 <= i < |s| :: IsDigit(s[i])
  }

  /** str.isupper(): at least one cased character and no lower-case one. */
  predicate IsUpper(s: string) {
    HasCased(s) && forall i | 0 <= i < |s| :: !IsLowerChar(s[i])
  }

  /**
   * The scan behind str.istitle(): an upper-case letter may only follow an
   * uncased character, a lower-case letter only a cased one, and at least
   * one cased character must occur.
   */
  predicate TitleScan(s: string, previousCased: bool, seenCased: bool)
    decreases |s|
  {
    if s == [] then seenCased
    else if IsUpperChar(s[0]) then !previousCased && TitleScan(s[1..], true, true)
    else if IsLowerChar(s[0]) then previousCased && TitleScan(s[1..], true, true)
    else TitleScan(s[1..], false, seenCased)
  }

  /** str.istitle() */
  predicate IsTitle(s: string) {
    TitleScan(s, false, false)
  }

  lemma {:induction false} TitleScanHasCased(s: string, previousCased: bool, seenCased: bool)
    requires TitleScan(s, previousCased, seenCased)
    requires !seenCased
    ensures HasCased(s)
  {
    if s != [] && !IsLetter(s[0]) {
      TitleScanHasCased(s[1..], false, seenCased);
      var i :| 0 <= i < |s[1..]| && IsLetter(s[1..][i]);
      assert IsLetter(s[i + 1]);
    }
  }

  /** The title-cased form from the given position on. */
  function TitleFrom(s: string, previousCased: bool): (r: string)
    ensures |r| == |s|
    decreases |s|
  {
    if s == [] then []
    else [if previousCased then LowerChar(s[0]) else UpperChar(s[0])] + TitleFrom(s[1..], IsLetter(s[0]))
  }

  /** str.title(): each letter is upper-cased after an uncased character and lower-cased after a cased one. */
  function Title(s: string): (r: string)
    ensures |r| == |s|
  {
    TitleFrom(s, false)
  }

  /** The number of words str.split() (no argument) yields. */
  function CountWords(s: string, inWord: bool): nat
    decreases |s|
  {
    if s == [] then 0
    else if IsSpace(s[0]) then CountWords(s[1..], false)
    else (if inWord then 0 else 1) + CountWords(s[1..], true)
  }

  function WordCount(s: string): nat {
    CountWords(s, false)
  }

  // ---------------------------------------------------------------- strip

  /** str.lstrip(chars) */
  function LStrip(s: string, cs: set<char>): (r: string)
    ensures |r| <= |s| && r == s[|s| - |r|..]
    ensures r != [] ==> r[0] !in cs
    decreases |s|
  {
    if s != [] && s[0] in cs then LStrip(s[1..], cs) else s
  }

  /** lstrip removes only characters of cs. */
  lemma {:induction false} LStripRemoved(s: string, cs: set<char>, i: nat)
    requires i < |s| - |LStrip(s, cs)|
    ensures s[i] in cs
    decreases |s|
  {
    if i > 0 { LStripRemoved(s[1..], cs, i - 1); }
  }

  /** str.rstrip(chars) */
  function RStrip(s: string, cs: set<char>): (r: string)
    ensures |r| <= |s| && r == s[..|r|]
    ensures r != [] ==> r[|r| - 1] !in cs
    decreases |s|
  {
    if s != [] && s[|s| - 1] in cs then RStrip(s[..|s| - 1], cs) else s
  }

  /** rstrip removes only characters of cs. */
  lemma {:induction false} RStripRemoved(s: string, cs: set<char>, i: nat)
    requires |RStrip(s, cs)| <= i < |s|
    ensures s[i] in cs
    decreases |s|
  {
    if i < |s| - 1 { RStripRemoved(s[..|s| - 1], cs, i); }
  }

  /** str.strip(chars) */
  function StripChars(s: string, cs: set<char>): (r: string)
    ensures |r| <= |s|
    ensures r != [] ==> r[0] !in cs && r[|r| - 1] !in cs
  {
    RStrip(LStrip(s, cs), cs)
  }

  /** str.strip() */
  function Strip(s: string): (r: string)
    ensures |r| <= |s|
  {
    StripChars(s, Whitespace)
  }

  /** A text with nothing to strip is in a list exactly when its stripped form is. */
  lemma StrippedIn(s: string, xs: seq<string>)
    requires IsStripped(s, Whitespace)
    ensures Strip(s) in xs <==> s in xs
  {
    StripCharsOfStripped(s, Whitespace);
  }

  /** strip(cs) keeps the slice that starts where lstrip stopped. */
  lemma StripCharsAt(s: string, cs: set<char>)
    ensures var i := |s| - |LStrip(s, cs)|;
      i + |StripChars(s, cs)| <= |s| && StripChars(s, cs) == s[i..i + |StripChars(s, cs)|]
  {
  }

  /** Neither end of s is a character of cs: what strip(cs) leaves. */
  predicate IsStripped(s: string, cs: set<char>) {
    s == [] || (s[0] !in cs && s[|s| - 1] !in cs)
  }

  /** strip(cs) returns a contiguous slice of its argument. */
  lemma StripCharsIsSlice(s: string, cs: set<char>)
    ensures exists i, j :: 0 <= i <= j <= |s| && StripChars(s, cs) == s[i..j]
  {
    var l := LStrip(s, cs);
    var r := RStrip(l, cs);
    var i := |s| - |l|;
    assert r == s[i..i + |r|];
  }

  lemma LStripKeeps(pre: string, b: string, cs: set<char>)
    requires forall k :: 0 <= k < |pre| ==> pre[k] in cs
    requires b == [] || b[0] !in cs
    ensures LStrip(pre + b, cs) == b
  {
    var s := pre + b;
    var r := LStrip(s, cs);
    var i := |s| - |r|;
    if i > |pre| {
      LStripRemoved(s, cs, |pre|);
      assert false;
    } else if i < |pre| {
      assert false;
    }
    assert s[|pre|..] == b;
  }

  lemma RStripKeeps(b: string, post: string, cs: set<char>)
    requires forall k :: 0 <= k < |post| ==> post[k] in cs
    requires b == [] || b[|b| - 1] !in cs
    ensures RStrip(b + post, cs) == b
    decreases |post|
  {
    if post != [] {
      assert (b + post)[..|b + post| - 1] == b + post[..|post| - 1];
      RStripKeeps(b, post[..|post| - 1], cs);
    } else {
      assert b + post == b;
    }
  }

  /** strip(cs) removes exactly the surrounding characters of cs. */
  lemma StripSurrounded(pre: string, b: string, post: string, cs: set<char>)
    requires forall k :: 0 <= k < |pre| ==> pre[k] in cs
    requires forall k :: 0 <= k < |post| ==> post[k] in cs
    requires IsStripped(b, cs)
    ensures StripChars(pre + b + post, cs) == b
  {
    if b == [] {
      assert pre + b + post == pre + post;
      LStripKeeps(pre + post, [], cs);
      assert pre + post + [] == pre + post;
      RStripKeeps([], [], cs);
    } else {
      assert pre + b + post == pre + (b + post);
      LStripKeeps(pre, b + post, cs);
      RStripKeeps(b, post, cs);
    }
  }

  lemma StripCharsOfStripped(s: string, cs: set<char>)
    requires IsStripped(s, cs)
    ensures StripChars(s, cs) == s
  {
    StripSurrounded([], s, [], cs);
    assert [] + s + [] == s;
  }

  /** A character outside cs survives strip(cs). */
  lemma StripCharsNonEmpty(s: string, cs: set<char>, k: nat)
    requires k < |s| && s[k] !in cs
    ensures StripChars(s, cs) != []
  {
    var l := LStrip(s, cs);
    if k < |s| - |l| { LStripRemoved(s, cs, k); }
    var j := k - (|s| - |l|);
    assert l[j] == s[k];
    if |RStrip(l, cs)| <= j { RStripRemoved(l, cs, j); }
  }

  // ---------------------------------------------------------------- split and join

  function IndexOf(s: string, c: char): (k: nat)
    requires c in s
    ensures k < |s| && s[k] == c
    ensures forall j :: 0 <= j < k ==> s[j] != c
  {
    if s[0] == c then 0 else 1 + IndexOf(s[1..], c)
  }

  /** str.split(sep) for a one-character separator. */
  function Split(s: string, sep: char): (parts: seq<string>)
    ensures |parts| >= 1
    ensures forall i :: 0 <= i < |parts| ==> sep !in parts[i]
    decreases |s|
  {
    if sep in s then
      var k := IndexOf(s, sep);
      [s[..k]] + Split(s[k + 1..], sep)
    else [s]
  }

  /** sep.join(parts) */
  function Join(parts: seq<string>, sep: string): string
    decreases |parts|
  {
    if |parts| == 0 then ""
    else if |parts| == 1 then parts[0]
    else parts[0] + sep + Join(parts[1..], sep)
  }

  /** Joining what split produced restores the text. */
  lemma {:induction false} JoinSplit(s: string, sep: char)
    ensures Join(Split(s, sep), [sep]) == s
    decreases |s|
  {
    if sep in s {
      var k := IndexOf(s, sep);
      var rest := Split(s[k + 1..], sep);
      SplitAt(s, sep);
      JoinCons(s[..k], rest, [sep]);
      JoinSplit(s[k + 1..], sep);
      assert s == s[..k] + [sep] + s[k + 1..];
    } else {
      assert Split(s, sep) == [s];
    }
  }

  /** Where the separator occurs, split cuts at its first occurrence. */
  lemma SplitAt(s: string, sep: char)
    requires sep in s
    ensures Split(s, sep) == [s[..IndexOf(s, sep)]] + Split(s[IndexOf(s, sep) + 1..], sep)
  {
  }

  lemma JoinCons(x: string, rest: seq<string>, sep: string)
    requires rest != []
    ensures Join([x] + rest, sep) == x + sep + Join(rest, sep)
  {
    assert ([x] + rest)[1..] == rest;
  }

  lemma IndexOfAfter(a: string, c: char, b: string)
    requires c !in a
    ensures c in a + [c] + b && IndexOf(a + [c] + b, c) == |a|
  {
    var s := a + [c] + b;
    assert s[|a|] == c;
  }

  /** Splitting what join produced restores the parts, when no part holds the separator. */
  lemma {:induction false} SplitJoin(parts: seq<string>, sep: char)
    requires |parts| >= 1
    requires forall i :: 0 <= i < |parts| ==> sep !in parts[i]
    ensures Split(Join(parts, [sep]), sep) == parts
    decreases |parts|
  {
    if |parts| > 1 {
      var first := parts[0];
      var rest := Join(parts[1..], [sep]);
      var s := first + [sep] + rest;
      assert parts == [first] + parts[1..];
      JoinCons(first, parts[1..], [sep]);
      assert Join(parts, [sep]) == s;
      IndexOfAfter(first, sep, rest);
      SplitAt(s, sep);
      assert s[..|first|] == first;
      assert s[|first| + 1..] == rest;
      SplitJoin(parts[1..], sep);
    } else {
      assert parts == [parts[0]];
      assert sep !in parts[0];
    }
  }

  /** Joining two non-empty lists is joining each and putting a separator between. */
  lemma {:induction false} JoinConcat(p: seq<string>, q: seq<string>, sep: string)
    requires p != [] && q != []
    ensures Join(p + q, sep) == Join(p, sep) + sep + Join(q, sep)
    decreases |p|
  {
    if |p| > 1 {
      assert (p + q)[1..] == p[1..] + q;
      JoinConcat(p[1..], q, sep);
    } else {
      assert (p + q)[1..] == q;
    }
  }

  lemma JoinAppend(parts: seq<string>, x: string, sep: string)
    requires |parts| >= 1
    ensures Join(parts + [x], sep) == Join(parts, sep) + sep + x
    decreases |parts|
  {
    if |parts| > 1 {
      assert (parts + [x])[1..] == parts[1..] + [x];
      JoinAppend(parts[1..], x, sep);
    } else {
      assert (parts + [x])[1..] == [x];
    }
  }

  // ---------------------------------------------------------------- substrings

  predicate StartsWith(s: string, p: string) {
    |p| <= |s| && s[..|p|] == p
  }

  predicate EndsWith(s: string, p: string) {
    |p| <= |s| && s[|s| - |p|..] == p
  }

  predicate OccursAt(s: string, sub: string, i: int) {
    0 <= i && i + |sub| <= |s| && s[i..i + |sub|] == sub
  }

  /** Python's `sub in s`. */
  predicate Contains(s: string, sub: string) {
    exists i | 0 <= i <= |s| :: OccursAt(s, sub, i)
  }

  lemma ContainsAt(s: string, sub: string, i: nat)
    requires i + |sub| <= |s| && s[i..i + |sub|] == sub
    ensures Contains(s, sub)
  {
    assert OccursAt(s, sub, i);
  }

  /** Every character of a substring occurs in the text. */
  lemma ContainedChars(s: string, sub: string, c: char)
    requires Contains(s, sub) && c in sub
    ensures c in s
  {
    var i :| 0 <= i <= |s| && OccursAt(s, sub, i);
    var j :| 0 <= j < |sub| && sub[j] == c;
    assert s[i + j] == s[i..i + |sub|][j];
  }

  /** A substring stays a substring when text is appended. */
  lemma ContainsAppend(s: string, t: string, sub: string)
    requires Contains(s, sub)
    ensures Contains(s + t, sub)
  {
    var i :| 0 <= i <= |s| && OccursAt(s, sub, i);
    assert (s + t)[i..i + |sub|] == s[i..i + |sub|];
    assert OccursAt(s + t, sub, i);
  }

  /** A substring stays a substring when text is prepended. */
  lemma ContainsPrepend(pre: string, s: string, sub: string)
    requires Contains(s, sub)
    ensures Contains(pre + s, sub)
  {
    var i :| 0 <= i <= |s| && OccursAt(s, sub, i);
    assert (pre + s)[|pre| + i..|pre| + i + |sub|] == s[i..i + |sub|];
    assert OccursAt(pre + s, sub, |pre| + i);
  }

  /** Three consecutive parts of a join, with the separators between them, occur in the joined text. */
  lemma {:induction false} JoinContainsRun(parts: seq<string>, sep: string, i: nat)
    requires i + 2 < |parts|
    ensures Contains(Join(parts, sep), parts[i] + sep + parts[i + 1] + sep + parts[i + 2])
    decreases i
  {
    var j := Join(parts, sep);
    var run := parts[i] + sep + parts[i + 1] + sep + parts[i + 2];
    if i == 0 {
      var tail := Join(parts[2..], sep);
      assert Join(parts[1..], sep) == parts[1] + sep + tail by {
        assert parts[1..][1..] == parts[2..];
      }
      var more := if |parts| == 3 then "" else sep + Join(parts[3..], sep);
      assert tail == parts[2] + more by {
        assert parts[2..][1..] == parts[3..];
      }
      assert j == run + more;
      assert j[..|run|] == run;
      ContainsAt(j, run, 0);
    } else {
      JoinContainsRun(parts[1..], sep, i - 1);
      assert parts[1..][i - 1] == parts[i] && parts[1..][i] == parts[i + 1] && parts[1..][i + 1] == parts[i + 2];
      ContainsPrepend(parts[0] + sep, Join(parts[1..], sep), run);
    }
  }

  /** Containment is transitive: a substring of a substring is a substring. */
  lemma ContainsTransitive(s: string, mid: string, sub: string)
    requires Contains(s, mid) && Contains(mid, sub)
    ensures Contains(s, sub)
  {
    var i :| 0 <= i <= |s| && OccursAt(s, mid, i);
    var j :| 0 <= j <= |mid| && OccursAt(mid, sub, j);
    var w := s[i + j..i + j + |sub|];
    forall k | 0 <= k < |sub|
      ensures w[k] == sub[k]
    {
      assert sub[k] == mid[j + k] == s[i + j + k];
    }
    assert OccursAt(s, sub, i + j);
  }
  /** strip() keeps a contiguous slice of its argument. */
  lemma StripAt(t: string) returns (j: nat)
    ensures j + |Strip(t)| <= |t| && Strip(t) == t[j..j + |Strip(t)|]
  {
    StripCharsAt(t, Whitespace);
    j := |t| - |LStrip(t, Whitespace)|;
  }

  /** A text contains its stripped form. */
  lemma StripContained(t: string)
    ensures Contains(t, Strip(t))
  {
    var j := StripAt(t);
    ContainsAt(t, Strip(t), j);
  }

  /** A text contains each of its suffixes. */
  lemma SuffixContained(s: string, suffix: string)
    requires |suffix| <= |s| && suffix == s[|s| - |suffix|..]
    ensures Contains(s, suffix)
  {
    ContainsAt(s, suffix, |s| - |suffix|);
  }


  /** Python's s[:k], including a negative k counted from the end. */
  function PyPrefix(s: string, k: int): (r: string)
    ensures |r| <= |s| && r == s[..|r|]
    ensures k >= 0 ==> |r| == if k < |s| then k else |s|
    ensures k < 0 ==> |r| == if |s| + k > 0 then |s| + k else 0
  {
    if k >= 0 then (if k < |s| then s[..k] else s)
    else if |s| + k > 0 then s[..|s| + k]
    else []
  }

  /** Python's xs[:n] for a non-negative n. */
  function Take<T>(xs: seq<T>, n: nat): (r: seq<T>)
    ensures |r| == if n < |xs| then n else |xs|
    ensures r == xs[..|r|]
  {
    if n < |xs| then xs[..n] else xs
  }

  /** The number of leading whitespace characters. */
  function LeadingSpaces(s: string): (n: nat)
    ensures n <= |s|
    ensures n < |s| ==> !IsSpace(s[n])
    decreases |s|
  {
    if s != [] && IsSpace(s[0]) then 1 + LeadingSpaces(s[1..]) else 0
  }

  lemma {:induction false} LeadingSpacesAreSpaces(s: string, k: nat)
    requires k < LeadingSpaces(s)
    ensures IsSpace(s[k])
    decreases |s|
  {
    if k > 0 { LeadingSpacesAreSpaces(s[1..], k - 1); }
  }

  // ---------------------------------------------------------------- replace

  /** str.replace(pat, rep): non-overlapping occurrences, left to right. */
  function Replace(s: string, pat: string, rep: string): string
    requires pat != []
    decreases |s|
  {
    if |s| < |pat| then s
    else if s[..|pat|] == pat then rep + Replace(s[|pat|..], pat, rep)
    else [s[0]] + Replace(s[1..], pat, rep)
  }

  lemma ReplaceMatch(t: string, pat: string, rep: string)
    requires pat != []
    ensures Replace(pat + t, pat, rep) == rep + Replace(t, pat, rep)
  {
    assert (pat + t)[..|pat|] == pat;
    assert (pat + t)[|pat|..] == t;
  }

  lemma ReplaceNoMatch(s: string, pat: string, rep: string)
    requires pat != [] && s != []
    requires |s| < |pat| || s[..|pat|] != pat
    ensures Replace(s, pat, rep) == [s[0]] + Replace(s[1..], pat, rep)
  {
    if |s| < |pat| {
      assert Replace(s[1..], pat, rep) == s[1..];
      assert s == [s[0]] + s[1..];
    }
  }

  /** Text holding no first character of `pat` passes through replace unchanged. */
  lemma {:induction false} ReplaceSkip(p: string, t: string, pat: string, rep: string)
    requires pat != []
    requires forall k :: 0 <= k < |p| ==> p[k] != pat[0]
    ensures Replace(p + t, pat, rep) == p + Replace(t, pat, rep)
    decreases |p|
  {
    if p != [] {
      var s := p + t;
      if |s| >= |pat| { assert s[..|pat|][0] != pat[0]; }
      ReplaceNoMatch(s, pat, rep);
      assert s[1..] == p[1..] + t;
      ReplaceSkip(p[1..], t, pat, rep);
    } else {
      assert p + t == t;
    }
  }
}
