/** The pieces of Python's `str` that the summariser relies on: `isspace`,
    `strip()` with no argument, and `rfind` of a one-character needle. */
module PyText {
  import opened Wrappers

  /** Python's `str.isspace` for a single character: the characters whose
      bidirectional class is WS, B or S, or whose category is Zs. */
  predicate IsSpace(c: char) {
    || ('\U{0009}' <= c <= '\U{000D}')
    || ('\U{001C}' <= c <= '\U{001F}')
    || c == ' '
    || c == '\U{0085}'
    || c == '\U{00A0}'
    || c == '\U{1680}'
    || ('\U{2000}' <= c <= '\U{200A}')
    || c == '\U{2028}'
    || c == '\U{2029}'
    || c == '\U{202F}'
    || c == '\U{205F}'
    || c == '\U{3000}'
  }

  /** Every character is whitespace (the empty string included). */
  predicate IsBlank(s: string) {
    forall i :: 0 <= i < |s| ==> IsSpace(s[i])
  }

  /** No whitespace at either end. */
  predicate Tight(s: string) {
    s != [] ==> !IsSpace(s[0]) && !IsSpace(s[|s| - 1])
  }

  predicate IsPrefix(p: string, s: string) {
    |p| <= |s| && p == s[..|p|]
  }

  predicate IsSuffix(p: string, s: string) {
    |p| <= |s| && p == s[|s| - |p|..]
  }

  /** `s[lo..hi]` is `s` with only whitespace removed around it. */
  predicate IsWindow(s: string, lo: int, hi: int) {
    && 0 <= lo <= hi <= |s|
    && (forall i :: 0 <= i < lo ==> IsSpace(s[i]))
    && (forall i :: hi <= i < |s| ==> IsSpace(s[i]))
  }

  /** The first index at or after `i` that is not whitespace, or `|s|`. */
  function SkipSpaces(s: string, i: nat): (j: nat)
    requires i <= |s|
    ensures i <= j <= |s|
    ensures forall k :: i <= k < j ==> IsSpace(s[k])
    ensures j < |s| ==> !IsSpace(s[j])
    decreases |s| - i
  {
    if i == |s| || !IsSpace(s[i]) then i else SkipSpaces(s, i + 1)
  }

  /** The smallest index `k` in `lo..j` such that `s[k..j]` is all
      whitespace: scanning back from `j`, stopping at `lo` or after a
      non-whitespace character. */
  function SkipSpacesBack(s: string, lo: nat, j: nat): (k: nat)
    requires lo <= j <= |s|
    ensures lo <= k <= j
    ensures forall m :: k <= m < j ==> IsSpace(s[m])
    ensures k > lo ==> !IsSpace(s[k - 1])
    decreases j
  {
    if j == lo || !IsSpace(s[j - 1]) then j else SkipSpacesBack(s, lo, j - 1)
  }

  /** Where `strip()` cuts: after the leading and before the trailing whitespace. */
  function StripStartIndex(s: string): nat {
    SkipSpaces(s, 0)
  }

  function StripEndIndex(s: string): (hi: nat)
    ensures StripStartIndex(s) <= hi <= |s|
  {
    SkipSpacesBack(s, StripStartIndex(s), |s|)
  }

  /** Python's `s.strip()`: the result is a window of `s` cut only through
      whitespace, it has no whitespace at either end, and it is empty
      exactly when `s` is blank. */
  function Strip(s: string): (r: string)
    ensures IsWindow(s, StripStartIndex(s), StripEndIndex(s))
    ensures r == s[StripStartIndex(s)..StripEndIndex(s)]
    ensures Tight(r)
    ensures r == [] <==> IsBlank(s)
  {
    var lo := StripStartIndex(s);
    var hi := StripEndIndex(s);
    assert lo < |s| ==> lo < hi by {
      if lo < |s| {
        assert !IsSpace(s[lo]);
      }
    }
    s[lo..hi]
  }

  /** Any window of `s` cut only through whitespace, whose ends are not
      whitespace, is what `strip()` returns: `Strip` is the unique such window. */
  lemma StripIsTheTightWindow(s: string, lo: int, hi: int)
    requires IsWindow(s, lo, hi)
    requires Tight(s[lo..hi])
    ensures Strip(s) == s[lo..hi]
  {
    var a := StripStartIndex(s);
    var b := StripEndIndex(s);
    if lo == hi {
      assert IsBlank(s) by {
        forall i | 0 <= i < |s| ensures IsSpace(s[i]) {
          if i < lo {} else {}
        }
      }
    } else {
      // Both windows start at the first non-space and end after the last one.
      assert s[lo..hi][0] == s[lo] && s[lo..hi][hi - lo - 1] == s[hi - 1];
      assert !IsSpace(s[lo]) && !IsSpace(s[hi - 1]);
      assert a < b;
      assert s[a..b][0] == s[a] && s[a..b][b - a - 1] == s[b - 1];
      assert !IsSpace(s[a]) && !IsSpace(s[b - 1]);
      assert a == lo && b == hi;
    }
  }

  /** `strip()` is idempotent. */
  lemma StripIdempotent(s: string)
    ensures Strip(Strip(s)) == Strip(s)
  {
    var r := Strip(s);
    assert r == r[0..|r|];
    StripIsTheTightWindow(r, 0, |r|);
  }

  /** Stripping a string that ends in a non-space character keeps that
      character last. */
  lemma StripKeepsLastNonSpace(s: string)
    requires s != [] && !IsSpace(s[|s| - 1])
    ensures Strip(s) != [] && Strip(s)[|Strip(s)| - 1] == s[|s| - 1]
  {
    var a := StripStartIndex(s);
    var b := StripEndIndex(s);
    assert !IsBlank(s);
    assert !IsSpace(s[|s| - 1]);
    assert a < b;
    assert Strip(s)[b - a - 1] == s[b - 1];
  }

  /** Python's `s.rfind(c)`, with `None` for Python's `-1`: the index of the
      last occurrence of `c`, nothing equal to `c` after it. */
  function RFind(s: string, c: char): (r: Option<nat>)
    ensures r.None? <==> c !in s
    ensures r.Some? ==> r.value < |s| && s[r.value] == c && c !in s[r.value + 1..]
    decreases |s|
  {
    if s == [] then None
    else if s[|s| - 1] == c then Some(|s| - 1)
    else
      assert s == s[..|s| - 1] + [s[|s| - 1]];
      RFind(s[..|s| - 1], c)
  }
}
