/**
 * The part of Python's `str` that the question validator relies on:
 * `x.strip()` with no argument, and its truth value (a string is truthy
 * when it is non-empty).
 */
module PyStr {

  /**
   * Python's whitespace (`str.isspace`): the characters `strip()` removes
   * when called with no argument.
   */
  predicate IsSpace(c: char) {
    || ('\t' <= c <= '\r')              // tab, newline, vertical tab, form feed, carriage return
    || ('\U{1C}' <= c <= '\U{1F}')      // file, group, record and unit separators
    || c == ' '
    || c == '\U{85}'                    // next line
    || c == '\U{A0}'                    // no-break space
    || c == '\U{1680}'
    || ('\U{2000}' <= c <= '\U{200A}')
    || c == '\U{2028}' || c == '\U{2029}'
    || c == '\U{202F}' || c == '\U{205F}' || c == '\U{3000}'
  }

  /** The number of whitespace characters at the front of `s`. */
  function LeadingSpaces(s: string): (k: nat)
    ensures k <= |s|
    ensures forall i :: 0 <= i < k ==> IsSpace(s[i])
    ensures k < |s| ==> !IsSpace(s[k])
  {
    if s == [] || !IsSpace(s[0]) then 0 else 1 + LeadingSpaces(s[1..])
  }

  /** The number of whitespace characters at the back of `s`. */
  function TrailingSpaces(s: string): (k: nat)
    ensures k <= |s|
    ensures forall i :: |s| - k <= i < |s| ==> IsSpace(s[i])
    ensures k < |s| ==> !IsSpace(s[|s| - 1 - k])
  {
    if s == [] || !IsSpace(s[|s| - 1]) then 0 else 1 + TrailingSpaces(s[..|s| - 1])
  }

  /** `s` without its leading whitespace. */
  function LStrip(s: string): string {
    s[LeadingSpaces(s)..]
  }

  /** `s` without its trailing whitespace. */
  function RStrip(s: string): string {
    s[..|s| - TrailingSpaces(s)]
  }

  /** Python's argument-less strip: whitespace removed from both ends. */
  function Strip(s: string): (r: string)
    ensures |r| <= |s|
    ensures r != [] ==> !IsSpace(r[0]) && !IsSpace(r[|r| - 1])
  {
    RStrip(LStrip(s))
  }

  /** The strip of `s` is a slice of `s`, and everything cut off on either side is whitespace. */
  lemma StripCutsOnlyWhitespace(s: string)
    ensures exists a, b :: 0 <= a <= b <= |s| && Strip(s) == s[a..b]
                           && forall i :: 0 <= i < a || b <= i < |s| ==> IsSpace(s[i])
  {
    var a := LeadingSpaces(s);
    var t := s[a..];
    var b := a + |t| - TrailingSpaces(t);
    assert Strip(s) == s[a..b];
    forall i | 0 <= i < a || b <= i < |s| ensures IsSpace(s[i]) {
      if b <= i {
        assert s[i] == t[i - a];
      }
    }
  }

  /** Some character of `s` is not whitespace. */
  predicate HasVisibleChar(s: string) {
    exists i :: 0 <= i < |s| && !IsSpace(s[i])
  }

  /** The strip of `s` is non-empty exactly when `s` holds a character that is not whitespace. */
  lemma StripNonEmptyIff(s: string)
    ensures Strip(s) != [] <==> HasVisibleChar(s)
  {
    var k := LeadingSpaces(s);
    var t := s[k..];
    if t == [] {
      assert k == |s|;
      assert !HasVisibleChar(s);
    } else {
      assert !IsSpace(s[k]);
      var m := TrailingSpaces(t);
      assert |RStrip(t)| == |t| - m > 0;
    }
  }

  /** Stripping a stripped string changes nothing. */
  lemma StripIdempotent(s: string)
    ensures Strip(Strip(s)) == Strip(s)
  {
    var r := Strip(s);
    if r != [] {
      assert LeadingSpaces(r) == 0;
      assert LStrip(r) == r;
      assert TrailingSpaces(r) == 0;
    }
  }
}
