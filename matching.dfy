/**
 * The naive keyword rule shared by the parser, the tailor and the keyword
 * extractor: an item matches a text when the item's lower-case form occurs
 * as a substring of the text's lower-case form. No stemming, no word
 * boundaries: "AI" matches inside "maintain".
 */
module Matching {
  import opened Text

  /** Python's `item.lower() in text.lower()`. */
  predicate MatchesCI(item: string, text: string) {
    Contains(Lower(text), Lower(item))
  }

  /** `[x for x in items if x.lower() in text.lower()]`, built from the front of the list to its end. */
  function MatchedIn(items: seq<string>, text: string): seq<string>
    decreases |items|
  {
    if items == [] then []
    else
      var last := items[|items| - 1];
      MatchedIn(items[..|items| - 1], text) + (if MatchesCI(last, text) then [last] else [])
  }

  /** `sum(1 for x in items if x.lower() in text.lower())`: duplicates count once each. */
  function CountMatched(items: seq<string>, text: string): nat
    decreases |items|
  {
    if items == [] then 0
    else CountMatched(items[..|items| - 1], text) + (if MatchesCI(items[|items| - 1], text) then 1 else 0)
  }

  /** a is obtained from b by deleting elements: order is kept, nothing is added or repeated. */
  predicate IsSubsequence<T(==)>(a: seq<T>, b: seq<T>)
    decreases |b|
  {
    if b == [] then a == []
    else
      (a != [] && a[|a| - 1] == b[|b| - 1] && IsSubsequence(a[..|a| - 1], b[..|b| - 1]))
      || IsSubsequence(a, b[..|b| - 1])
  }

  lemma {:induction false} SubsequenceRefl<T>(a: seq<T>)
    ensures IsSubsequence(a, a)
    decreases |a|
  {
    if a != [] { SubsequenceRefl(a[..|a| - 1]); }
  }

  lemma {:induction false} SubsequenceMembers<T>(a: seq<T>, b: seq<T>, x: T)
    requires IsSubsequence(a, b) && x in a
    ensures x in b
    decreases |b|
  {
    var b' := b[..|b| - 1];
    if a != [] && a[|a| - 1] == b[|b| - 1] && IsSubsequence(a[..|a| - 1], b') {
      if x != a[|a| - 1] {
        assert a == a[..|a| - 1] + [a[|a| - 1]];
        SubsequenceMembers(a[..|a| - 1], b', x);
      }
    } else {
      SubsequenceMembers(a, b', x);
    }
    assert b == b' + [b[|b| - 1]];
  }

  lemma {:induction false} SubsequenceLength<T>(a: seq<T>, b: seq<T>)
    requires IsSubsequence(a, b)
    ensures |a| <= |b|
    decreases |b|
  {
    if b != [] {
      var b' := b[..|b| - 1];
      if a != [] && a[|a| - 1] == b[|b| - 1] && IsSubsequence(a[..|a| - 1], b') {
        SubsequenceLength(a[..|a| - 1], b');
      } else {
        SubsequenceLength(a, b');
      }
    }
  }

  /** Extending the list by one element keeps a subsequence, whether or not the element is also kept. */
  lemma SubsequenceExtend<T>(a: seq<T>, b: seq<T>, x: T, keep: bool)
    requires IsSubsequence(a, b)
    ensures IsSubsequence(a + (if keep then [x] else []), b + [x])
  {
    assert (b + [x])[..|b|] == b;
    if keep {
      assert (a + [x])[..|a|] == a;
    } else {
      assert a + [] == a;
    }
  }

  /**
   * The matched items are exactly the items that match: an item is in the
   * result iff it is in the list and its lower-case form occurs in the text.
   */
  lemma {:induction false} MatchedInMembers(items: seq<string>, text: string, x: string)
    ensures x in MatchedIn(items, text) <==> x in items && MatchesCI(x, text)
    decreases |items|
  {
    if items != [] {
      var init := items[..|items| - 1];
      MatchedInMembers(init, text, x);
      assert items == init + [items[|items| - 1]];
    }
  }

  /** The matched items keep the list's order and multiplicity: they are a subsequence of it. */
  lemma {:induction false} MatchedInSubsequence(items: seq<string>, text: string)
    ensures IsSubsequence(MatchedIn(items, text), items)
    decreases |items|
  {
    if items != [] {
      var init := items[..|items| - 1];
      var last := items[|items| - 1];
      var m := MatchedIn(init, text);
      MatchedInSubsequence(init, text);
      if MatchesCI(last, text) {
        assert (m + [last])[..|m|] == m;
      } else {
        assert m + [] == m;
      }
    }
  }

  /** The matched list and the match count agree: the count is the length of the matched list. */
  lemma {:induction false} MatchedInCount(items: seq<string>, text: string)
    ensures |MatchedIn(items, text)| == CountMatched(items, text)
    decreases |items|
  {
    if items != [] { MatchedInCount(items[..|items| - 1], text); }
  }

  /** Counting distributes over concatenation, so a repeated item is counted each time. */
  lemma {:induction false} CountMatchedAppend(a: seq<string>, b: seq<string>, text: string)
    ensures CountMatched(a + b, text) == CountMatched(a, text) + CountMatched(b, text)
    decreases |b|
  {
    if b == [] {
      assert a + b == a;
    } else {
      assert (a + b)[..|a + b| - 1] == a + b[..|b| - 1];
      CountMatchedAppend(a, b[..|b| - 1], text);
    }
  }

  lemma {:induction false} MatchedInAppend(a: seq<string>, b: seq<string>, text: string)
    ensures MatchedIn(a + b, text) == MatchedIn(a, text) + MatchedIn(b, text)
    decreases |b|
  {
    if b == [] {
      assert a + b == a;
    } else {
      assert (a + b)[..|a + b| - 1] == a + b[..|b| - 1];
      MatchedInAppend(a, b[..|b| - 1], text);
    }
  }

  /** The count never exceeds the number of items, and reaches it exactly when every item matches. */
  lemma {:induction false} CountMatchedBounds(items: seq<string>, text: string)
    ensures CountMatched(items, text) <= |items|
    ensures CountMatched(items, text) == |items| <==> forall i :: 0 <= i < |items| ==> MatchesCI(items[i], text)
    decreases |items|
  {
    if items != [] {
      var init := items[..|items| - 1];
      CountMatchedBounds(init, text);
      assert forall i :: 0 <= i < |init| ==> init[i] == items[i];
    }
  }

  /** Appending text to the haystack never loses a match. */
  lemma MatchesAppend(item: string, text: string, more: string)
    requires MatchesCI(item, text)
    ensures MatchesCI(item, text + more)
  {
    LowerAppend(text, more);
    ContainsAppend(Lower(text), Lower(more), Lower(item));
  }

  /** Matching is monotone in the text: appending never decreases the count. */
  lemma {:induction false} CountMatchedMonotone(items: seq<string>, text: string, more: string)
    ensures CountMatched(items, text) <= CountMatched(items, text + more)
    decreases |items|
  {
    if items != [] {
      CountMatchedMonotone(items[..|items| - 1], text, more);
      if MatchesCI(items[|items| - 1], text) { MatchesAppend(items[|items| - 1], text, more); }
    }
  }

  /** Appending text keeps every earlier match, in order. */
  lemma {:induction false} MatchedInMonotone(items: seq<string>, text: string, more: string)
    ensures IsSubsequence(MatchedIn(items, text), MatchedIn(items, text + more))
    decreases |items|
  {
    if items != [] {
      var init := items[..|items| - 1];
      var last := items[|items| - 1];
      var m := MatchedIn(init, text);
      var m' := MatchedIn(init, text + more);
      MatchedInMonotone(init, text, more);
      if MatchesCI(last, text) {
        MatchesAppend(last, text, more);
        assert (m + [last])[..|m|] == m;
        assert (m' + [last])[..|m'|] == m';
      } else if MatchesCI(last, text + more) {
        assert m + [] == m;
        assert (m' + [last])[..|m'|] == m';
      } else {
        assert m + [] == m;
        assert m' + [] == m';
      }
    }
  }

  /** Matching depends only on the lower-case form of the text: changing its letter case changes nothing. */
  lemma {:induction false} CountMatchedCaseInsensitive(items: seq<string>, text: string, other: string)
    requires Lower(text) == Lower(other)
    ensures CountMatched(items, text) == CountMatched(items, other)
    ensures MatchedIn(items, text) == MatchedIn(items, other)
    decreases |items|
  {
    if items != [] { CountMatchedCaseInsensitive(items[..|items| - 1], text, other); }
  }

  /** Upper-casing the whole text leaves the count and the matched list unchanged. */
  lemma CountMatchedUpper(items: seq<string>, text: string)
    ensures CountMatched(items, Upper(text)) == CountMatched(items, text)
    ensures MatchedIn(items, Upper(text)) == MatchedIn(items, text)
  {
    LowerOfUpper(text);
    CountMatchedCaseInsensitive(items, Upper(text), text);
  }
}
