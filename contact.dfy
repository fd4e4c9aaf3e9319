/**
 * Contact details picked out of a resume's text: the first e-mail address,
 * phone number, LinkedIn profile and other web address the regular
 * expressions find, and a name guessed from the first five lines.
 *
 * The four regular-expression searches are not modelled: their results,
 * in the order they occur in the text, are the `Findings` given to the
 * model. The name heuristic is modelled in full.
 */
module Contact {
  import opened Wrappers
  import opened Text

  /**
   * One match of the phone pattern: `countryCode` is what its only
   * capturing group, the optional `+1 ` prefix, matched ("" when absent);
   * `number` is the whole match.
   */
  datatype PhoneMatch = PhoneMatch(countryCode: string, number: string)

  /** What the four searches over the text return, in order of occurrence. */
  datatype Findings = Findings(
    emails: seq<string>,
    phones: seq<PhoneMatch>,
    linkedins: seq<string>,
    urls: seq<string>)

  /** The keys the contact dictionary may hold. */
  const ContactKeys: set<string> := {"email", "phone", "linkedin", "website", "name"}

  // ---------------------------------------------------------------- phone

  /**
   * The phone value as the code computes it: `re.findall` on a pattern with
   * exactly one capturing group returns that group's text for each match,
   * not a tuple, so the value kept is the country-code prefix.
   */
  function PhoneAsWritten(m: PhoneMatch): (r: string)
    ensures r == m.countryCode
  {
    m.countryCode
  }

  /** The phone value the code evidently means to keep: the whole matched number. */
  function Phone(m: PhoneMatch): (r: string)
    ensures r == m.number
  {
    m.number
  }

  /** A plain ten-digit number has no country code, so the value kept as written is empty. */
  lemma PhoneAsWrittenLosesNumber()
    ensures PhoneAsWritten(PhoneMatch("", "415-555-0100")) == ""
    ensures Phone(PhoneMatch("", "415-555-0100")) == "415-555-0100"
  {
  }

  // ---------------------------------------------------------------- web addresses

  /** `"linkedin.com" not in url.lower()` */
  predicate IsOtherUrl(url: string) {
    !Contains(Lower(url), "linkedin.com")
  }

  /** The web addresses that are not LinkedIn ones, in their order. */
  function OtherUrls(urls: seq<string>): seq<string>
    decreases |urls|
  {
    if urls == [] then []
    else
      var last := urls[|urls| - 1];
      OtherUrls(urls[..|urls| - 1]) + (if IsOtherUrl(last) then [last] else [])
  }

  lemma {:induction false} OtherUrlsMembers(urls: seq<string>, u: string)
    ensures u in OtherUrls(urls) <==> u in urls && IsOtherUrl(u)
    decreases |urls|
  {
    if urls != [] {
      OtherUrlsMembers(urls[..|urls| - 1], u);
      assert urls == urls[..|urls| - 1] + [urls[|urls| - 1]];
    }
  }

  /** The first other address is the first address in the list that is not a LinkedIn one. */
  lemma {:induction false} OtherUrlsFirst(urls: seq<string>, k: nat)
    requires k < |urls| && IsOtherUrl(urls[k])
    requires forall j :: 0 <= j < k ==> !IsOtherUrl(urls[j])
    ensures OtherUrls(urls) != [] && OtherUrls(urls)[0] == urls[k]
    decreases |urls|
  {
    var init := urls[..|urls| - 1];
    if k < |init| {
      OtherUrlsFirst(init, k);
    } else {
      OtherUrlsNone(init);
    }
  }

  lemma {:induction false} OtherUrlsNone(urls: seq<string>)
    requires forall j :: 0 <= j < |urls| ==> !IsOtherUrl(urls[j])
    ensures OtherUrls(urls) == []
    decreases |urls|
  {
    if urls != [] { OtherUrlsNone(urls[..|urls| - 1]); }
  }

  // ---------------------------------------------------------------- name

  predicate IsSeparator(c: char) {
    c == '-' || c == '.' || IsSpace(c)
  }

  /** `n` digits start at position i. */
  predicate DigitsAt(s: string, i: nat, n: nat) {
    i + n <= |s| && forall k | i <= k < i + n :: IsDigit(s[k])
  }

  /** `\d{4}` at j */
  predicate LastGroupAt(s: string, j: nat) {
    DigitsAt(s, j, 4)
  }

  /** `\d{3}[-.\s]?\d{4}` at j */
  predicate MiddleGroupAt(s: string, j: nat) {
    DigitsAt(s, j, 3) && (LastGroupAt(s, j + 3) || (j + 3 < |s| && IsSeparator(s[j + 3]) && LastGroupAt(s, j + 4)))
  }

  /** `\d{3}[-.\s]?\d{3}[-.\s]?\d{4}` at i */
  predicate PhoneShapeAt(s: string, i: nat) {
    DigitsAt(s, i, 3) && (MiddleGroupAt(s, i + 3) || (i + 3 < |s| && IsSeparator(s[i + 3]) && MiddleGroupAt(s, i + 4)))
  }

  /** `re.search(r'\d{3}[-.\s]?\d{3}[-.\s]?\d{4}', s)` finds a match. */
  predicate HasPhoneShape(s: string) {
    exists i: nat | i < |s| :: PhoneShapeAt(s, i)
  }

  lemma DigitsAtFirst(s: string, i: nat, n: nat)
    requires DigitsAt(s, i, n) && n > 0
    ensures HasDigit(s)
  {
    assert IsDigit(s[i]);
  }

  /** A line with no digit can never look like a phone number. */
  lemma NoDigitNoPhoneShape(s: string)
    requires !HasDigit(s)
    ensures !HasPhoneShape(s)
  {
    forall i: nat | i < |s| ensures !PhoneShapeAt(s, i) {
      if DigitsAt(s, i, 3) { DigitsAtFirst(s, i, 3); }
    }
  }

  /**
   * The name heuristic for one stripped line: non-empty, shorter than 50
   * characters, no digit, title-cased or an upper-case line of at most
   * four words, no `@` and nothing shaped like a phone number.
   */
  predicate IsNameCandidate(line: string) {
    line != "" && |line| < 50 && !HasDigit(line)
    && (IsTitle(line) || (IsUpper(line) && WordCount(line) <= 4))
    && '@' !in line && !HasPhoneShape(line)
  }

  /** The name test on a line with no digit need not look for a phone number: that check never rejects. */
  lemma PhoneCheckRedundant(line: string)
    ensures IsNameCandidate(line) <==>
      line != "" && |line| < 50 && !HasDigit(line)
      && (IsTitle(line) || (IsUpper(line) && WordCount(line) <= 4)) && '@' !in line
  {
    if !HasDigit(line) { NoDigitNoPhoneShape(line); }
  }

  /** The first line that `accept` takes: the loop that stops at the first match. */
  function FirstPassing(lines: seq<string>, accept: string -> bool): Option<string>
    decreases |lines|
  {
    if lines == [] then None
    else if accept(lines[0]) then Some(lines[0])
    else FirstPassing(lines[1..], accept)
  }

  /** Every line stripped. */
  function StripAll(lines: seq<string>): (r: seq<string>)
    ensures |r| == |lines| && forall k :: 0 <= k < |lines| ==> r[k] == Strip(lines[k])
  {
    seq(|lines|, k requires 0 <= k < |lines| => Strip(lines[k]))
  }

  lemma {:induction false} NonePassingAt(lines: seq<string>, accept: string -> bool, k: nat)
    requires k < |lines| && FirstPassing(lines, accept) == None
    ensures !accept(lines[k])
    decreases k
  {
    if k > 0 {
      assert lines[1..][k - 1] == lines[k];
      NonePassingAt(lines[1..], accept, k - 1);
    }
  }

  lemma {:induction false} NonePassing(lines: seq<string>, accept: string -> bool)
    requires forall k :: 0 <= k < |lines| ==> !accept(lines[k])
    ensures FirstPassing(lines, accept) == None
    decreases |lines|
  {
    if lines != [] {
      var rest := lines[1..];
      assert forall k :: 0 <= k < |rest| ==> rest[k] == lines[k + 1];
      NonePassing(rest, accept);
    }
  }

  lemma {:induction false} FirstPassingAt(lines: seq<string>, accept: string -> bool, k: nat)
    requires k < |lines| && accept(lines[k])
    requires forall j :: 0 <= j < k ==> !accept(lines[j])
    ensures FirstPassing(lines, accept) == Some(lines[k])
    decreases k
  {
    if k > 0 {
      assert lines[1..][k - 1] == lines[k];
      var rest := lines[1..];
      assert forall j :: 0 <= j < k - 1 ==> rest[j] == lines[j + 1];
      FirstPassingAt(rest, accept, k - 1);
    }
  }

  lemma {:induction false} FirstPassingSome(lines: seq<string>, accept: string -> bool)
    requires FirstPassing(lines, accept).Some?
    ensures accept(FirstPassing(lines, accept).value)
    ensures exists k :: 0 <= k < |lines| && FirstPassing(lines, accept).value == lines[k]
    decreases |lines|
  {
    if !accept(lines[0]) {
      FirstPassingSome(lines[1..], accept);
      var k :| 0 <= k < |lines[1..]| && FirstPassing(lines[1..], accept).value == lines[1..][k];
      assert lines[1..][k] == lines[k + 1];
    }
  }

  /** The first line that passes the name test, stripped. */
  function FirstCandidate(lines: seq<string>): Option<string> {
    FirstPassing(StripAll(lines), IsNameCandidate)
  }

  /** No name is guessed exactly when no line passes the test. */
  lemma FirstCandidateNone(lines: seq<string>)
    ensures FirstCandidate(lines) == None <==> forall k :: 0 <= k < |lines| ==> !IsNameCandidate(Strip(lines[k]))
  {
    if forall k :: 0 <= k < |lines| ==> !IsNameCandidate(Strip(lines[k])) {
      NonePassing(StripAll(lines), IsNameCandidate);
    }
    if FirstCandidate(lines) == None {
      forall k | 0 <= k < |lines| ensures !IsNameCandidate(Strip(lines[k])) {
        NonePassingAt(StripAll(lines), IsNameCandidate, k);
      }
    }
  }

  /** The guessed name is the first line (stripped) that passes the test: no earlier line does. */
  lemma FirstCandidateAt(lines: seq<string>, k: nat)
    requires k < |lines| && IsNameCandidate(Strip(lines[k]))
    requires forall j :: 0 <= j < k ==> !IsNameCandidate(Strip(lines[j]))
    ensures FirstCandidate(lines) == Some(Strip(lines[k]))
  {
    FirstPassingAt(StripAll(lines), IsNameCandidate, k);
  }

  /** A found name is one of the lines, stripped, and passes the test. */
  lemma FirstCandidateSome(lines: seq<string>)
    requires FirstCandidate(lines).Some?
    ensures IsNameCandidate(FirstCandidate(lines).value)
    ensures exists k :: 0 <= k < |lines| && FirstCandidate(lines).value == Strip(lines[k])
  {
    FirstPassingSome(StripAll(lines), IsNameCandidate);
  }

  /** Only the first five lines are looked at. */
  function NameLines(text: string): (lines: seq<string>)
    ensures |lines| <= 5
  {
    Take(Split(text, '\n'), 5)
  }

  // ---------------------------------------------------------------- the dictionary

  /** The e-mail entry: the first address found, if any. */
  function AddEmail(m: map<string, string>, f: Findings): map<string, string> {
    if f.emails != [] then m["email" := f.emails[0]] else m
  }

  /** The phone entry: what `re.findall` returned for the first match, if any. */
  function AddPhone(m: map<string, string>, f: Findings): map<string, string> {
    if f.phones != [] then m["phone" := PhoneAsWritten(f.phones[0])] else m
  }

  /** The LinkedIn entry: the first profile path found, as an https address. */
  function AddLinkedIn(m: map<string, string>, f: Findings): map<string, string> {
    if f.linkedins != [] then m["linkedin" := "https://" + f.linkedins[0]] else m
  }

  /** The website entry: the first address found that is not a LinkedIn one. */
  function AddWebsite(m: map<string, string>, f: Findings): map<string, string> {
    var others := OtherUrls(f.urls);
    if others != [] then m["website" := others[0]] else m
  }

  /** The entries that come from the searches, before the name is looked for. */
  function SearchedFields(f: Findings): map<string, string> {
    AddWebsite(AddLinkedIn(AddPhone(AddEmail(map[], f), f), f), f)
  }

  /** The dictionary built from the searches and the guessed name, if any. */
  function ContactDict(f: Findings, name: Option<string>): map<string, string> {
    var m := SearchedFields(f);
    match name
    case Some(n) => m["name" := n]
    case None => m
  }

  /**
   * The dictionary as evidently intended: the same entries, except that the
   * phone entry holds the whole first number found.
   */
  function ContactDictIntended(f: Findings, name: Option<string>): (r: map<string, string>)
    ensures "phone" in r <==> f.phones != []
    ensures f.phones != [] ==> r["phone"] == f.phones[0].number
  {
    var m := ContactDict(f, name);
    if f.phones != [] then m["phone" := Phone(f.phones[0])] else m
  }

  /** The dictionary `_extract_contact_info` returns. */
  function ContactInfoOf(text: string, f: Findings): map<string, string> {
    ContactDict(f, FirstCandidate(NameLines(text)))
  }

  /** The four searches of `_extract_contact_info`, each filling its entry in place. */
  method FillSearchedFields(f: Findings) returns (info: map<string, string>)
    ensures info == SearchedFields(f)
  {
    info := map[];
    if f.emails != [] {
      info := info["email" := f.emails[0]];
    }
    assert info == AddEmail(map[], f);
    if f.phones != [] {
      info := info["phone" := PhoneAsWritten(f.phones[0])];
    }
    assert info == AddPhone(AddEmail(map[], f), f);
    if f.linkedins != [] {
      info := info["linkedin" := "https://" + f.linkedins[0]];
    }
    assert info == AddLinkedIn(AddPhone(AddEmail(map[], f), f), f);
    if f.urls != [] {
      var others := OtherUrls(f.urls);
      if others != [] {
        info := info["website" := others[0]];
      }
    }
  }

  /** `_extract_contact_info`: the searched entries, then the name loop that stops at the first line passing the test. */
  method ExtractContactInfo(text: string, f: Findings) returns (info: map<string, string>)
    ensures info == ContactInfoOf(text, f)
  {
    info := FillSearchedFields(f);
    var lines := NameLines(text);
    ghost var stripped := StripAll(lines);
    var i := 0;
    while i < |lines|
      invariant 0 <= i <= |lines|
      invariant info == SearchedFields(f)
      invariant FirstPassing(stripped[i..], IsNameCandidate) == FirstCandidate(lines)
    {
      var line := Strip(lines[i]);
      assert stripped[i..][0] == line;
      if IsNameCandidate(line) {
        assert FirstCandidate(lines) == Some(line);
        info := info["name" := line];
        return;
      }
      assert stripped[i..][1..] == stripped[i + 1..];
      i := i + 1;
    }
    assert stripped[i..] == [];
  }

  // ---------------------------------------------------------------- properties

  /** Whatever the name, the dictionary only has the five known keys. */
  lemma ContactKeysKnown(f: Findings, name: Option<string>)
    ensures ContactDict(f, name).Keys <= ContactKeys
  {
  }

  /** The e-mail is present exactly when an address was found, and it is the first one. */
  lemma ContactEmail(f: Findings, name: Option<string>)
    ensures "email" in ContactDict(f, name) <==> f.emails != []
    ensures f.emails != [] ==> ContactDict(f, name)["email"] == f.emails[0]
  {
  }

  /**
   * The phone is present exactly when a number was found, and it holds what
   * the pattern's only group matched in the first one: its country code.
   */
  lemma ContactPhone(f: Findings, name: Option<string>)
    ensures "phone" in ContactDict(f, name) <==> f.phones != []
    ensures f.phones != [] ==> ContactDict(f, name)["phone"] == f.phones[0].countryCode
  {
  }

  /** The intended dictionary differs from the one built only in the phone entry. */
  lemma ContactDictsAgree(f: Findings, name: Option<string>)
    ensures ContactDictIntended(f, name).Keys == ContactDict(f, name).Keys
    ensures forall k :: k in ContactDict(f, name) && k != "phone" ==>
      ContactDictIntended(f, name)[k] == ContactDict(f, name)[k]
  {
    ContactPhone(f, name);
  }

  /** A resume whose only number is "415-555-0100" gets an empty phone entry; the intended one is the number. */
  lemma ContactDictLosesNumber(name: Option<string>)
    ensures var f := Findings([], [PhoneMatch("", "415-555-0100")], [], []);
      ContactDict(f, name)["phone"] == "" && ContactDictIntended(f, name)["phone"] == "415-555-0100"
  {
    var f := Findings([], [PhoneMatch("", "415-555-0100")], [], []);
    ContactPhone(f, name);
  }

  /** The LinkedIn entry is the first profile path found, made into an https address. */
  lemma ContactLinkedIn(f: Findings, name: Option<string>)
    ensures "linkedin" in ContactDict(f, name) <==> f.linkedins != []
    ensures f.linkedins != [] ==> ContactDict(f, name)["linkedin"] == "https://" + f.linkedins[0]
  {
  }

  /** The website is the first address found that is not a LinkedIn one; there is none if all are. */
  lemma ContactWebsite(f: Findings, name: Option<string>, k: nat)
    requires k < |f.urls| && IsOtherUrl(f.urls[k])
    requires forall j :: 0 <= j < k ==> !IsOtherUrl(f.urls[j])
    ensures "website" in ContactDict(f, name) && ContactDict(f, name)["website"] == f.urls[k]
  {
    OtherUrlsFirst(f.urls, k);
  }

  lemma ContactNoWebsite(f: Findings, name: Option<string>)
    requires forall j :: 0 <= j < |f.urls| ==> !IsOtherUrl(f.urls[j])
    ensures "website" !in ContactDict(f, name)
  {
    OtherUrlsNone(f.urls);
  }

  /** The name entry is exactly the guessed name. */
  lemma NameEntry(f: Findings, name: Option<string>)
    ensures "name" in ContactDict(f, name) <==> name.Some?
    ensures name.Some? ==> ContactDict(f, name)["name"] == name.value
  {
    assert "name" !in SearchedFields(f);
  }

  /** A guessed name passes the test and is one of the first five lines, stripped. */
  lemma ContactName(text: string, f: Findings)
    requires "name" in ContactInfoOf(text, f)
    ensures IsNameCandidate(ContactInfoOf(text, f)["name"])
    ensures exists k :: 0 <= k < |NameLines(text)| && ContactInfoOf(text, f)["name"] == Strip(NameLines(text)[k])
  {
    NameEntry(f, FirstCandidate(NameLines(text)));
    FirstCandidateSome(NameLines(text));
  }

  /** The name is the first of the first five lines that passes the test. */
  lemma ContactFirstName(text: string, f: Findings, k: nat)
    requires k < |NameLines(text)| && IsNameCandidate(Strip(NameLines(text)[k]))
    requires forall j :: 0 <= j < k ==> !IsNameCandidate(Strip(NameLines(text)[j]))
    ensures "name" in ContactInfoOf(text, f) && ContactInfoOf(text, f)["name"] == Strip(NameLines(text)[k])
  {
    FirstCandidateAt(NameLines(text), k);
    NameEntry(f, FirstCandidate(NameLines(text)));
  }

  /** No name is given exactly when none of the first five lines passes the test. */
  lemma ContactNoName(text: string, f: Findings)
    ensures "name" !in ContactInfoOf(text, f) <==>
      forall k :: 0 <= k < |NameLines(text)| ==> !IsNameCandidate(Strip(NameLines(text)[k]))
  {
    FirstCandidateNone(NameLines(text));
    NameEntry(f, FirstCandidate(NameLines(text)));
  }

  /** A guessed name never holds a digit, an `@`, and is shorter than 50 characters. */
  lemma ContactNameShape(text: string, f: Findings)
    requires "name" in ContactInfoOf(text, f)
    ensures var n := ContactInfoOf(text, f)["name"]; n != "" && |n| < 50 && !HasDigit(n) && '@' !in n
  {
    ContactName(text, f);
  }
}
