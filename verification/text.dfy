/** Python's `str.strip()` with no argument, on `seq<char>`. */
module Text {

  /** The characters `str.isspace()` accepts, which are exactly those `str.strip()` removes. */
  predicate IsSpace(c: char) {
    || ('\t' <= c <= '\r')            // tab, line feed, vertical tab, form feed, carriage return
    || ('\U{1C}' <= c <= '\U{1F}')    // the four information separators
    || c == ' '
    || c == '\U{85}' || c == '\U{A0}' || c == '\U{1680}'
    || ('\U{2000}' <= c <= '\U{200A}')
    || c == '\U{2028}' || c == '\U{2029}' || c == '\U{202F}' || c == '\U{205F}' || c == '\U{3000}'
  }

  /** Every character of `s` is whitespace (vacuously true of the empty string). */
  predicate AllSpace(s: string) {
    forall i :: 0 <= i < |s| ==> IsSpace(s[i])
  }

  /** The first position at or after `i` that does not hold whitespace (`|s|` if none does). */
  function SkipSpaces(s: string, i: nat): (j: nat)
    requires i <= |s|
    ensures i <= j <= |s|
    ensures forall x :: i <= x < j ==> IsSpace(s[x])
    ensures j < |s| ==> !IsSpace(s[j])
    decreases |s| - i
  {
    if i < |s| && IsSpace(s[i]) then SkipSpaces(s, i + 1) else i
  }

  /** The end of `s[lo..j]` once its trailing whitespace is dropped. */
  function BackSpaces(s: string, lo: nat, j: nat): (k: nat)
    requires lo <= j <= |s|
    ensures lo <= k <= j
    ensures forall x :: k <= x < j ==> IsSpace(s[x])
    ensures lo < k ==> !IsSpace(s[k - 1])
    decreases j
  {
    if lo < j && IsSpace(s[j - 1]) then BackSpaces(s, lo, j - 1) else j
  }

  /** `str.strip()`: whitespace removed from both ends, nothing else touched. */
  function Strip(s: string): (r: string)
    ensures |r| <= |s|
    ensures r != [] ==> !IsSpace(r[0]) && !IsSpace(r[|r| - 1])
  {
    var lo := SkipSpaces(s, 0);
    s[lo..BackSpaces(s, lo, |s|)]
  }

  /** The cut `Strip` makes: a middle slice with whitespace-only margins and non-whitespace ends. */
  lemma StripShape(s: string) returns (i: nat, j: nat)
    ensures i <= j <= |s| && Strip(s) == s[i..j]
    ensures forall x :: 0 <= x < i ==> IsSpace(s[x])
    ensures forall x :: j <= x < |s| ==> IsSpace(s[x])
    ensures i < j ==> !IsSpace(s[i]) && !IsSpace(s[j - 1])
  {
    i := SkipSpaces(s, 0);
    j := BackSpaces(s, i, |s|);
  }

  /** Reads `AllSpace` of a slice back as a fact about the positions of the whole string. */
  lemma SpacesOf(s: string, a: nat, b: nat)
    requires a <= b <= |s| && AllSpace(s[a..b])
    ensures forall x :: a <= x < b ==> IsSpace(s[x])
  {
    forall x | a <= x < b
      ensures IsSpace(s[x])
    {
      assert s[x] == s[a..b][x - a];
    }
  }

  /** Any slice of `s` with whitespace-only margins and non-whitespace ends (or none left at all)
      is the one `Strip` returns: the cut is uniquely determined. */
  lemma StripUnique(s: string, i: nat, j: nat)
    requires i <= j <= |s|
    requires AllSpace(s[..i]) && AllSpace(s[j..])
    requires i < j ==> !IsSpace(s[i]) && !IsSpace(s[j - 1])
    ensures Strip(s) == s[i..j]
  {
    var k, m := StripShape(s);
    assert s[..i] == s[0..i] && s[j..] == s[j..|s|];
    if i < j {
      assert k < m by { SpacesOf(s, 0, i); }
      assert k == i by { SpacesOf(s, 0, i); }
      assert m == j by { SpacesOf(s, j, |s|); }
    } else {
      assert k == m by { SpacesOf(s, 0, i); SpacesOf(s, j, |s|); }
    }
  }

  /** A string strips to nothing exactly when it is all whitespace. */
  lemma StripEmptyIff(s: string)
    ensures Strip(s) == [] <==> AllSpace(s)
  {
    var i, j := StripShape(s);
    if AllSpace(s) {
      StripUnique(s, 0, 0);
    }
  }

  /** Stripping twice is stripping once. */
  lemma StripIdempotent(s: string)
    ensures Strip(Strip(s)) == Strip(s)
  {
    var r := Strip(s);
    StripUnique(r, 0, |r|);
  }
}
