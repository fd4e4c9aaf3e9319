/**
 * Input validation: the output-format whitelist, the job-description and
 * file-path guards, the extension check, and the filename sanitiser.
 * Filesystem queries (whether a path exists) are parameters.
 */
module Validators {
  import opened Wrappers
  import opened Text

  // ---------------------------------------------------------------- numbers in messages

  function DigitChar(d: nat): char
    requires d < 10
  {
    ['0', '1', '2', '3', '4', '5', '6', '7', '8', '9'][d]
  }

  /** f"{n}" for a non-negative integer. */
  function NatString(n: nat): string
  {
    if n < 10 then [DigitChar(n)] else NatString(n / 10) + [DigitChar(n % 10)]
  }

  /** f"{i}" for any integer. */
  function IntString(i: int): string
  {
    if i < 0 then "-" + NatString(-i) else NatString(i)
  }

  // ---------------------------------------------------------------- validate_output_format

  const SupportedFormats: seq<string> := ["markdown", "md", "txt", "pdf"]
  const UnsupportedFormat: string := "Unsupported format: "
  const SupportedList: string := ". Supported formats: "

  /** `validate_output_format`: the lower-cased, stripped format when it is supported. */
  function ValidateOutputFormat(format: string): (r: Result<string>)
    ensures r.Ok? <==> Strip(Lower(format)) in SupportedFormats
    ensures r.Ok? ==> r.value == Strip(Lower(format))
    ensures r.Err? ==> r.error.ValueError?
  {
    var formatLower := Strip(Lower(format));
    if formatLower !in SupportedFormats then
      Err(ValueError(UnsupportedFormat + format + SupportedList + Join(SupportedFormats, ", ")))
    else
      Ok(formatLower)
  }

  /** A piece of lower-cased text is unchanged by lower-casing. */
  lemma LowerOfLowered(s: string, i: nat, v: string)
    requires i + |v| <= |s| && v == Lower(s)[i..i + |v|]
    ensures Lower(v) == v
  {
    forall k | 0 <= k < |v|
      ensures Lower(v)[k] == v[k]
    {
      assert v[k] == Lower(s)[i + k] == LowerChar(s[i + k]);
    }
  }

  /** What the validator returns is lower-case and stripped already. */
  lemma NormalisedFormat(format: string)
    ensures Lower(Strip(Lower(format))) == Strip(Lower(format))
  {
    var lowered := Lower(format);
    StripCharsAt(lowered, Whitespace);
    LowerOfLowered(lowered, |lowered| - |LStrip(lowered, Whitespace)|, Strip(lowered));
  }

  /** Validating an accepted format again accepts it unchanged. */
  lemma OutputFormatIdempotent(format: string)
    requires ValidateOutputFormat(format).Ok?
    ensures ValidateOutputFormat(ValidateOutputFormat(format).value) == ValidateOutputFormat(format)
  {
    var v := Strip(Lower(format));
    NormalisedFormat(format);
    StripCharsOfStripped(v, Whitespace);
  }

  // ---------------------------------------------------------------- validate_job_description

  const DefaultMinLength: int := 50
  const EmptyDescription: string := "Job description cannot be empty"
  const ShortDescription: string := "Job description too short: "
  const MinimumLabel: string := " characters (minimum: "

  /** `validate_job_description`: non-blank, and at least `minLength` characters once stripped. */
  function ValidateJobDescription(jobDescription: string, minLength: int): (r: Result<bool>)
    ensures r.Ok? <==> Strip(jobDescription) != [] && |Strip(jobDescription)| >= minLength
    ensures r.Ok? ==> r.value
    ensures Strip(jobDescription) == [] ==> r == Err(ValueError(EmptyDescription))
  {
    var stripped := Strip(jobDescription);
    if stripped == [] then
      Err(ValueError(EmptyDescription))
    else if |stripped| < minLength then
      Err(ValueError(ShortDescription + IntString(|stripped|) + MinimumLabel + IntString(minLength) + ")"))
    else
      Ok(true)
  }

  /**
   * With the default minimum the validator accepts exactly the descriptions
   * the keyword extractor's own guard lets through.
   */
  lemma DefaultDescriptionGuard(jobDescription: string)
    ensures ValidateJobDescription(jobDescription, DefaultMinLength).Ok? <==> |Strip(jobDescription)| >= 50
  {
  }

  /** A stricter minimum never accepts more. */
  lemma DescriptionGuardMonotone(jobDescription: string, low: int, high: int)
    requires low <= high
    requires ValidateJobDescription(jobDescription, high).Ok?
    ensures ValidateJobDescription(jobDescription, low).Ok?
  {
  }

  // ---------------------------------------------------------------- validate_file_path

  const EmptyPath: string := "File path cannot be empty"
  const NotFound: string := "File not found: "

  /**
   * `validate_file_path`: `pathExists` stands for the filesystem's answer.
   * The returned path is the text given (path normalisation is not modelled).
   */
  function ValidateFilePath(path: string, mustExist: bool, pathExists: bool): (r: Result<string>)
    ensures r.Ok? <==> Strip(path) != [] && (mustExist ==> pathExists)
    ensures r.Ok? ==> r.value == path
    ensures Strip(path) == [] ==> r == Err(ValueError(EmptyPath))
    ensures Strip(path) != [] && mustExist && !pathExists ==> r == Err(FileNotFoundError(NotFound + path))
  {
    if Strip(path) == [] then
      Err(ValueError(EmptyPath))
    else if mustExist && !pathExists then
      Err(FileNotFoundError(NotFound + path))
    else
      Ok(path)
  }

  // ---------------------------------------------------------------- validate_file_extension

  /** Python's str.rfind for one character: the last index of `c`, or -1. */
  function RFind(s: string, c: char): (i: int)
    ensures -1 <= i < |s|
    ensures i >= 0 ==> s[i] == c
    ensures forall j :: i < j < |s| ==> s[j] != c
  {
    if s == [] then -1
    else if s[|s| - 1] == c then |s| - 1
    else RFind(s[..|s| - 1], c)
  }

  /** The last path component that is neither empty nor ".", or "" when there is none. */
  function LastName(parts: seq<string>): string
  {
    if parts == [] then ""
    else if parts[|parts| - 1] != "" && parts[|parts| - 1] != "." then parts[|parts| - 1]
    else LastName(parts[..|parts| - 1])
  }

  /** pathlib's `PurePosixPath(path).name`. */
  function PathName(path: string): string {
    LastName(Split(path, '/'))
  }

  /** pathlib's `suffix`: from the last dot of the name, unless that dot is first or last. */
  function Suffix(path: string): (r: string)
    ensures r == [] || (|r| >= 2 && r[0] == '.' && '.' !in r[1..])
  {
    var name := PathName(path);
    var i := RFind(name, '.');
    if 0 < i < |name| - 1 then name[i..] else ""
  }

  function LowerAll(xs: seq<string>): (r: seq<string>)
    ensures |r| == |xs|
    ensures forall k :: 0 <= k < |xs| ==> r[k] == Lower(xs[k])
  {
    if xs == [] then [] else LowerAll(xs[..|xs| - 1]) + [Lower(xs[|xs| - 1])]
  }

  const UnsupportedExtension: string := "Unsupported file extension: "
  const AllowedLabel: string := ". Allowed: "

  /** `validate_file_extension`: the lower-cased suffix is one of the lower-cased allowed extensions. */
  function ValidateFileExtension(path: string, allowedExtensions: seq<string>): (r: Result<bool>)
    ensures r.Ok? <==> exists k :: 0 <= k < |allowedExtensions| && Lower(allowedExtensions[k]) == Lower(Suffix(path))
    ensures r.Ok? ==> r.value
    ensures r.Err? ==> r.error.ValueError?
  {
    var extension := Lower(Suffix(path));
    if extension !in LowerAll(allowedExtensions) then
      Err(ValueError(UnsupportedExtension + extension + AllowedLabel + Join(allowedExtensions, ", ")))
    else
      Ok(true)
  }

  /** A plain file name "stem.ext" has suffix ".ext". */
  lemma SuffixOfFileName(stem: string, ext: string)
    requires stem != [] && ext != []
    requires '/' !in stem && '/' !in ext && '.' !in ext
    ensures Suffix(stem + "." + ext) == "." + ext
  {
    var name := stem + "." + ext;
    assert '/' !in name by {
      forall k | 0 <= k < |name| ensures name[k] != '/' {
        if k < |stem| { assert name[k] == stem[k]; }
        else if k > |stem| { assert name[k] == ext[k - |stem| - 1]; }
      }
    }
    assert Split(name, '/') == [name];
    assert name != "" && name != ".";
    assert PathName(name) == name;
    assert name[|stem|] == '.';
    var i := RFind(name, '.');
    assert i == |stem|;
    assert name[i..] == "." + ext;
  }

  /** A path without a suffix passes only when "" is among the allowed extensions. */
  lemma NoSuffixNeedsEmpty(path: string, allowedExtensions: seq<string>)
    requires Suffix(path) == []
    ensures ValidateFileExtension(path, allowedExtensions).Ok? <==> "" in LowerAll(allowedExtensions)
  {
    assert Lower(Suffix(path)) == [];
  }

  // ---------------------------------------------------------------- sanitize_filename

  /** The characters `sanitize_filename` replaces: < > : " / \ | ? * */
  const InvalidChars: set<char> := {'<', '>', ':', '"', '/', '\\', '|', '?', '*'}
  /** The characters trimmed from both ends. */
  const Trimmed: set<char> := {'.', ' '}
  const Untitled: string := "untitled"
  const DefaultMaxLength: int := 255

  /** Each invalid character becomes '_'; every other character is kept. */
  function ReplaceInvalid(filename: string): (r: string)
    ensures |r| == |filename|
    ensures forall k :: 0 <= k < |r| ==> r[k] == if filename[k] in InvalidChars then '_' else filename[k]
  {
    if filename == [] then []
    else
      var c := filename[|filename| - 1];
      ReplaceInvalid(filename[..|filename| - 1]) + [if c in InvalidChars then '_' else c]
  }

  /** The replaced and trimmed name, before any truncation. */
  function Cleaned(filename: string): string {
    StripChars(ReplaceInvalid(filename), Trimmed)
  }

  /** rsplit(".", 1): the text before the last dot and after it; (s, "") without a dot. */
  function SplitExtension(s: string): (r: (string, string))
    ensures '.' in s ==> s == r.0 + "." + r.1 && '.' !in r.1
    ensures '.' !in s ==> r == (s, "")
  {
    var i := RFind(s, '.');
    if i < 0 then (s, "")
    else
      assert s == s[..i] + "." + s[i + 1..];
      (s[..i], s[i + 1..])
  }

  /** The length limit as the source writes it: the name's prefix may be cut with a negative bound. */
  function LimitLength(s: string, maxLength: int): string {
    if |s| > maxLength then
      var (name, ext) := SplitExtension(s);
      if ext != [] then PyPrefix(name, maxLength - |ext| - 1) + "." + ext
      else PyPrefix(name, maxLength)
    else s
  }

  /** `sanitize_filename`, as written. */
  function SanitizeFilename(filename: string, maxLength: int): (r: string)
    ensures r != []
  {
    var limited := LimitLength(Cleaned(filename), maxLength);
    if limited == [] then Untitled else limited
  }

  /**
   * A cleaned name within the limit is returned as it is, or "untitled" when
   * nothing is left; either way it neither begins nor ends with '.' or ' '.
   */
  lemma SanitizeFits(filename: string, maxLength: int)
    requires |Cleaned(filename)| <= maxLength
    ensures SanitizeFilename(filename, maxLength) == if Cleaned(filename) == [] then Untitled else Cleaned(filename)
    ensures IsStripped(SanitizeFilename(filename, maxLength), Trimmed)
  {
  }

  /** No character of `s` is one that sanitising replaces. */
  predicate NoInvalid(s: string) {
    forall c :: c in s ==> c !in InvalidChars
  }

  lemma ReplacedValid(filename: string)
    ensures NoInvalid(ReplaceInvalid(filename))
  {
    var r := ReplaceInvalid(filename);
    forall c | c in r
      ensures c !in InvalidChars
    {
      var k :| 0 <= k < |r| && r[k] == c;
    }
  }

  /** Trimming keeps a slice, so it keeps the property. */
  lemma StrippedValid(t: string)
    requires NoInvalid(t)
    ensures NoInvalid(StripChars(t, Trimmed))
  {
    StripCharsAt(t, Trimmed);
    var s := StripChars(t, Trimmed);
    var i := |t| - |LStrip(t, Trimmed)|;
    assert s == t[i..i + |s|];
    forall c | c in s
      ensures c in t
    {
      var k :| 0 <= k < |s| && s[k] == c;
      assert t[i + k] == s[k];
    }
  }

  lemma PrefixValid(s: string, p: string)
    requires NoInvalid(s)
    requires |p| <= |s| && p == s[..|p|]
    ensures NoInvalid(p)
  {
    forall c | c in p
      ensures c in s
    {
      var k :| 0 <= k < |p| && p[k] == c;
      assert s[k] == c;
    }
  }

  /** Limiting the length adds at most a '.', which is not replaced. */
  lemma LimitedValid(s: string, maxLength: int)
    requires NoInvalid(s)
    ensures NoInvalid(LimitLength(s, maxLength))
  {
    if |s| > maxLength {
      var (name, ext) := SplitExtension(s);
      if '.' in s {
        assert s == name + "." + ext;
        assert NoInvalid(name) && NoInvalid(ext);
      }
      var p := if ext != [] then PyPrefix(name, maxLength - |ext| - 1) else PyPrefix(name, maxLength);
      PrefixValid(name, p);
      assert NoInvalid(".");
    }
  }

  lemma UntitledValid()
    ensures NoInvalid(Untitled)
  {
  }

  /** No invalid character survives sanitising. */
  lemma SanitizeNoInvalid(filename: string, maxLength: int)
    ensures NoInvalid(SanitizeFilename(filename, maxLength))
  {
    ReplacedValid(filename);
    StrippedValid(ReplaceInvalid(filename));
    LimitedValid(Cleaned(filename), maxLength);
    UntitledValid();
  }

  /** A trimmed text containing a dot has a non-empty text after its last dot. */
  lemma ExtensionNonEmpty(filename: string)
    requires '.' in Cleaned(filename)
    ensures SplitExtension(Cleaned(filename)).1 != []
  {
    var s := Cleaned(filename);
  }

  lemma EndsWithExtension(p: string, ext: string)
    ensures EndsWith(p + "." + ext, "." + ext)
  {
    var r := p + "." + ext;
    assert r[|r| - |ext| - 1..] == "." + ext;
  }

  /** When truncating keeps room for the extension, the result fits and still ends with it. */
  lemma SanitizeKeepsExtension(filename: string, maxLength: int)
    requires |Cleaned(filename)| > maxLength
    requires '.' in Cleaned(filename)
    requires |SplitExtension(Cleaned(filename)).1| + 1 <= maxLength
    ensures |SanitizeFilename(filename, maxLength)| <= maxLength
    ensures EndsWith(SanitizeFilename(filename, maxLength), "." + SplitExtension(Cleaned(filename)).1)
  {
    var s := Cleaned(filename);
    ExtensionNonEmpty(filename);
    var (name, ext) := SplitExtension(s);
    var p := PyPrefix(name, maxLength - |ext| - 1);
    assert LimitLength(s, maxLength) == p + "." + ext;
    EndsWithExtension(p, ext);
  }

  /** Without a dot, truncation keeps the first `maxLength` characters. */
  lemma SanitizeTruncates(filename: string, maxLength: int)
    requires |Cleaned(filename)| > maxLength >= 1
    requires '.' !in Cleaned(filename)
    ensures SanitizeFilename(filename, maxLength) == Cleaned(filename)[..maxLength]
  {
  }

  /**
   * As written, an extension too long to fit drives the name's bound below
   * zero: the prefix then drops characters from the end of the name instead
   * of keeping none, and the result is longer than `maxLength`.
   */
  lemma SanitizeOverlong(filename: string, maxLength: int)
    requires |Cleaned(filename)| > maxLength >= 0
    requires '.' in Cleaned(filename)
    requires |SplitExtension(Cleaned(filename)).1| >= maxLength
    ensures |SanitizeFilename(filename, maxLength)| > maxLength
  {
    ExtensionNonEmpty(filename);
  }

  /** A name with nothing to replace is kept as it is. */
  lemma ReplaceNothing(s: string)
    requires NoInvalid(s)
    ensures ReplaceInvalid(s) == s
  {
    var r := ReplaceInvalid(s);
    forall k | 0 <= k < |s|
      ensures r[k] == s[k]
    {
      assert s[k] in s;
    }
  }

  lemma ExampleCleaned()
    ensures Cleaned(LongExtensionName) == LongExtensionName
  {
    var s := LongExtensionName;
    assert NoInvalid(s);
    ReplaceNothing(s);
    assert IsStripped(s, Trimmed);
    StripCharsOfStripped(s, Trimmed);
  }

  lemma ExampleSplit()
    ensures SplitExtension(LongExtensionName) == ("a", "bcdefgh")
  {
    var s := LongExtensionName;
    var i := RFind(s, '.');
    assert s[1] == '.';
    assert i == 1;
    assert s[..1] == "a" && s[2..] == "bcdefgh";
  }

  /** The concrete case: "a.bcdefgh" limited to 5 characters comes out as ".bcdefgh". */
  lemma SanitizeOverlongExample()
    ensures SanitizeFilename(LongExtensionName, 5) == LongExtensionResult
    ensures |LongExtensionResult| > 5
  {
    ExampleCleaned();
    ExampleSplit();
    assert PyPrefix("a", 5 - 7 - 1) == [];
    assert LimitLength(LongExtensionName, 5) == "" + "." + "bcdefgh";
  }

  const LongExtensionName: string := "a.bcdefgh"
  const LongExtensionResult: string := ".bcdefgh"

  /** The length limit with the evident intent: an extension that cannot fit is cut like a name without one. */
  function LimitLengthBounded(s: string, maxLength: int): (r: string)
    ensures maxLength >= 0 ==> |r| <= maxLength
  {
    if |s| > maxLength then
      var (name, ext) := SplitExtension(s);
      if ext != [] && |ext| + 1 <= maxLength then PyPrefix(name, maxLength - |ext| - 1) + "." + ext
      else PyPrefix(s, maxLength)
    else s
  }

  /** `sanitize_filename` with the length limit corrected. */
  function SanitizeFilenameBounded(filename: string, maxLength: int): (r: string)
    ensures r != []
    ensures maxLength >= 0 ==> |r| <= maxLength || r == Untitled
  {
    var limited := LimitLengthBounded(Cleaned(filename), maxLength);
    if limited == [] then Untitled else limited
  }

  /** The correction changes nothing except when the extension cannot fit. */
  lemma SanitizeBoundedAgrees(filename: string, maxLength: int)
    requires !(|Cleaned(filename)| > maxLength && '.' in Cleaned(filename)
               && |SplitExtension(Cleaned(filename)).1| + 1 > maxLength)
    ensures SanitizeFilenameBounded(filename, maxLength) == SanitizeFilename(filename, maxLength)
  {
    if '.' in Cleaned(filename) {
      ExtensionNonEmpty(filename);
    }
  }
}
