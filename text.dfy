/**
 * Python's `str.strip()` with no argument: removes every leading and every
 * trailing character for which `str.isspace()` holds.
 */
module PyText {

  /** The code points for which Python's `str.isspace()` is true. */
  predicate IsSpace(c: char)
  {
    || ('\t' <= c <= '\r')                        // tab, newline, vertical tab, form feed, carriage return
    || ('\U{1C}' <= c <= '\U{1F}')                // file, group, record and unit separators
    || c == ' ' || c == '\U{85}' || c == '\U{A0}'
    || c == '\U{1680}'
    || ('\U{2000}' <= c <= '\U{200A}')
    || c == '\U{2028}' || c == '\U{2029}' || c == '\U{202F}' || c == '\U{205F}'
    || c == '\U{3000}'
  }

  predicate AllSpace(s: string)
  {
    forall k :: 0 <= k < |s| ==> IsSpace(s[k])
  }

  /** `r` is what is left of `s` once `s[..i]` and the whitespace after `r` are cut off. */
  ghost predicate StripsTo(s: string, r: string, i: nat)
  {
    && i + |r| <= |s|
    && s[i..i + |r|] == r
    && AllSpace(s[..i])
    && AllSpace(s[i + |r|..])
    && (r == [] || (!IsSpace(r[0]) && !IsSpace(r[|r| - 1])))
  }

  /** The index of the first non-whitespace character at or after `i`, or `|s|`. */
  function SkipSpace(s: string, i: nat): (k: nat)
    requires i <= |s|
    ensures i <= k <= |s|
    ensures forall m :: i <= m < k ==> IsSpace(s[m])
    ensures k < |s| ==> !IsSpace(s[k])
    decreases |s| - i
  {
    if i < |s| && IsSpace(s[i]) then SkipSpace(s, i + 1) else i
  }

  /** The end of `s[..j]` once its trailing whitespace is removed. */
  function SkipSpaceBack(s: string, j: nat): (k: nat)
    requires j <= |s|
    ensures k <= j
    ensures forall m :: k <= m < j ==> IsSpace(s[m])
    ensures 0 < k ==> !IsSpace(s[k - 1])
  {
    if 0 < j && IsSpace(s[j - 1]) then SkipSpaceBack(s, j - 1) else j
  }

  /** Python's `s.strip()`. */
  function Strip(s: string): (r: string)
    ensures |r| <= |s|
    ensures exists i :: StripsTo(s, r, i)
    ensures r == [] <==> AllSpace(s)
  {
    var i := SkipSpace(s, 0);
    var j := if i == |s| then i else SkipSpaceBack(s, |s|);
    assert i < |s| ==> j > i;
    var r := s[i..j];
    assert StripsTo(s, r, i);
    r
  }

  /** The whitespace-free core of a string is unique: every way of cutting it gives `Strip`. */
  lemma StripUnique(s: string, r: string, i: nat)
    requires StripsTo(s, r, i)
    ensures r == Strip(s)
  {
    var r2 := Strip(s);
    var i2: nat :| StripsTo(s, r2, i2);
    if r == [] || r2 == [] {
      assert AllSpace(s) by {
        if r == [] {
          forall k | 0 <= k < |s| ensures IsSpace(s[k]) {
            if k < i { assert s[k] == s[..i][k]; } else { assert s[k] == s[i..][k - i]; }
          }
        }
      }
    } else {
      // both cuts start at the first non-space character and end after the last one
      assert s[i] == r[0] && s[i2] == r2[0];
      assert i == i2;
      var e, e2 := i + |r|, i2 + |r2|;
      assert s[e - 1] == r[|r| - 1] && s[e2 - 1] == r2[|r2| - 1];
      assert e == e2;
    }
  }

  /** Stripping twice is stripping once. */
  lemma StripIdempotent(s: string)
    ensures Strip(Strip(s)) == Strip(s)
  {
    var r := Strip(s);
    assert StripsTo(r, r, 0);
    StripUnique(r, r, 0);
  }
}
