/**
 * Python's `str.strip()` with no argument, as the services apply it to transcripts, prompts and replies:
 * it removes leading and trailing characters for which `str.isspace()` holds.
 */
module Text {

  /** `str.isspace()` for one character: the Unicode white-space characters Python recognises. */
  predicate IsSpace(c: char)
  {
    var n := c as int;
    n == 0x20 || 0x09 <= n <= 0x0d || 0x1c <= n <= 0x1f || n == 0x85 || n == 0xa0 ||
    n == 0x1680 || 0x2000 <= n <= 0x200a || n == 0x2028 || n == 0x2029 ||
    n == 0x202f || n == 0x205f || n == 0x3000
  }

  predicate AllSpace(s: string)
  {
    forall k :: 0 <= k < |s| ==> IsSpace(s[k])
  }

  /** Every character of `s` at the positions `lo .. hi - 1` is white space. */
  predicate SpaceBetween(s: string, lo: nat, hi: nat)
    requires lo <= hi <= |s|
  {
    forall k :: lo <= k < hi ==> IsSpace(s[k])
  }

  /** No white space at either end: what `strip()` returns. */
  predicate IsStripped(s: string)
  {
    s == [] || (!IsSpace(s[0]) && !IsSpace(s[|s| - 1]))
  }

  /** The first position at or after `i` that does not hold white space, or `|s|`. */
  function SkipLeft(s: string, i: nat): (r: nat)
    requires i <= |s|
    ensures i <= r <= |s| && SpaceBetween(s, i, r)
    ensures r < |s| ==> !IsSpace(s[r])
    decreases |s| - i
  {
    if i < |s| && IsSpace(s[i]) then SkipLeft(s, i + 1) else i
  }

  /** The end of the last non-white-space character in `lo .. j - 1`, or `lo`. */
  function SkipRight(s: string, lo: nat, j: nat): (r: nat)
    requires lo <= j <= |s|
    ensures lo <= r <= j && SpaceBetween(s, r, j)
    ensures r > lo ==> !IsSpace(s[r - 1])
    decreases j
  {
    if j > lo && IsSpace(s[j - 1]) then SkipRight(s, lo, j - 1) else j
  }

  /** Where the part kept by `strip()` starts in its argument. */
  function StripStart(s: string): nat
  {
    SkipLeft(s, 0)
  }

  /** Where the part kept by `strip()` ends in its argument. */
  function StripEnd(s: string): (j: nat)
    ensures StripStart(s) <= j <= |s|
  {
    SkipRight(s, StripStart(s), |s|)
  }

  /** `str.strip()`. */
  function Strip(s: string): string
  {
    s[StripStart(s)..StripEnd(s)]
  }

  /** `strip()` keeps a contiguous middle part of its argument and cuts only white space. */
  lemma StripIsInfix(s: string)
    ensures var i, j := StripStart(s), StripEnd(s);
      i <= j <= |s| && Strip(s) == s[i..j] && SpaceBetween(s, 0, i) && SpaceBetween(s, j, |s|)
  {
    var i, j := StripStart(s), StripEnd(s);
    if i < |s| {
      assert SpaceBetween(s, j, |s|);
    } else {
      assert j == |s|;
    }
  }

  /** The result of `strip()` has no white space at either end. */
  lemma StripIsStripped(s: string)
    ensures IsStripped(Strip(s))
  {
    var i, j := StripStart(s), StripEnd(s);
    var t := Strip(s);
    if t != [] {
      assert t[0] == s[i] && t[|t| - 1] == s[j - 1];
    }
  }

  /**
   * Any way of cutting white space off both ends of `s` that leaves no white space at either end
   * gives exactly `Strip(s)`: with StripIsInfix and StripIsStripped this characterises `strip()`.
   */
  lemma StripUnique(s: string, i: nat, j: nat)
    requires i <= j <= |s| && SpaceBetween(s, 0, i) && SpaceBetween(s, j, |s|) && IsStripped(s[i..j])
    ensures s[i..j] == Strip(s)
  {
    StripIsInfix(s);
    var i', j' := StripStart(s), StripEnd(s);
    if i < j {
      assert s[i..j][0] == s[i] && s[i..j][j - i - 1] == s[j - 1];
      assert !IsSpace(s[i]) && !IsSpace(s[j - 1]);
      assert i' <= i;
      assert i' == i;
      assert j <= j';
    }
  }

  /** `strip()` gives the empty string exactly when its argument is all white space. */
  lemma StripEmptyIffAllSpace(s: string)
    ensures Strip(s) == [] <==> AllSpace(s)
  {
    StripIsInfix(s);
    var i, j := StripStart(s), StripEnd(s);
    if i < j {
      assert !IsSpace(s[i]);
    }
  }

  /** Stripping twice is stripping once. */
  lemma StripIdempotent(s: string)
    ensures Strip(Strip(s)) == Strip(s)
  {
    var t := Strip(s);
    StripIsStripped(s);
    assert t[0..|t|] == t;
    StripUnique(t, 0, |t|);
  }
}
