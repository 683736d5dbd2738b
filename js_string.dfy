/**
 * The part of JavaScript's string semantics the guest book relies on:
 * `String.prototype.trim`, which strips WhiteSpace and LineTerminator code
 * points (as the ECMAScript Language Specification defines them) from both
 * ends of a string.
 */
module JsString {

  /** ECMAScript WhiteSpace (TAB, VT, FF, ZWNBSP and every "Zs" space) or LineTerminator. */
  predicate IsWhiteSpace(c: char) {
    if c <= ' ' then c == ' ' || '\t' <= c <= '\r'
    else if c < '\U{A0}' then false
    else
      || c == '\U{A0}' || c == '\U{1680}'
      || ('\U{2000}' <= c <= '\U{200A}')
      || c == '\U{2028}' || c == '\U{2029}' || c == '\U{202F}' || c == '\U{205F}'
      || c == '\U{3000}' || c == '\U{FEFF}'
  }

  /** Every character of `s` is white space (so `trim` erases all of it). */
  predicate AllWhiteSpace(s: string) {
    forall i :: 0 <= i < |s| ==> IsWhiteSpace(s[i])
  }

  /** White space followed by white space is white space. */
  lemma WhiteSpaceConcat(a: string, b: string)
    requires AllWhiteSpace(a) && AllWhiteSpace(b)
    ensures AllWhiteSpace(a + b)
  {
    assert forall i :: |a| <= i < |a + b| ==> (a + b)[i] == b[i - |a|];
  }

  /** Neither end of `s` is white space: a fixed point of `trim`. */
  predicate IsTrimmed(s: string) {
    s == [] || (!IsWhiteSpace(s[0]) && !IsWhiteSpace(s[|s| - 1]))
  }

  /** The first position at or after `i` that is not white space, or `|s|`. */
  function TextStart(s: string, i: nat): (k: nat)
    requires i <= |s|
    ensures i <= k <= |s|
    ensures forall j :: i <= j < k ==> IsWhiteSpace(s[j])
    ensures k < |s| ==> !IsWhiteSpace(s[k])
    decreases |s| - i
  {
    if i < |s| && IsWhiteSpace(s[i]) then TextStart(s, i + 1) else i
  }

  /** The end of the text before `j`: white space from there up to `j`, but none just before it (down to `lo`). */
  function TextEnd(s: string, lo: nat, j: nat): (k: nat)
    requires lo <= j <= |s|
    ensures lo <= k <= j
    ensures forall m :: k <= m < j ==> IsWhiteSpace(s[m])
    ensures k > lo ==> !IsWhiteSpace(s[k - 1])
  {
    if j > lo && IsWhiteSpace(s[j - 1]) then TextEnd(s, lo, j - 1) else j
  }

  /** `s.trim()`: the text between the leading and the trailing white space. */
  function Trim(s: string): string {
    var a := TextStart(s, 0);
    s[a..TextEnd(s, a, |s|)]
  }

  /** The white space `trim` removes from the front of `s`. */
  function Lead(s: string): (lead: string)
    ensures AllWhiteSpace(lead)
  {
    s[..TextStart(s, 0)]
  }

  /** The white space `trim` removes from the back of `s`. */
  function Trail(s: string): (trail: string)
    ensures AllWhiteSpace(trail)
  {
    var a := TextStart(s, 0);
    s[TextEnd(s, a, |s|)..]
  }

  /** The result of `trim` starts and ends with a non-space character, or is empty. */
  lemma TrimIsTrimmed(s: string)
    ensures IsTrimmed(Trim(s))
  {
  }

  /** `trim` splits its argument into white space, the trimmed text and white space. */
  lemma TrimSplits(s: string)
    ensures s == Lead(s) + Trim(s) + Trail(s)
  {
  }

  /** `trim` of a string made only of white space is empty, and only then. */
  lemma TrimEmptyIff(s: string)
    ensures Trim(s) == [] <==> AllWhiteSpace(s)
  {
    var a := TextStart(s, 0);
    if AllWhiteSpace(s) {
      assert a == |s|;
    }
  }

  /**
   * `trim` is determined by what it must return: when `s` is white space,
   * a non-empty trimmed text and white space, the text is the result.
   */
  lemma TrimFinds(lead: string, t: string, trail: string)
    requires AllWhiteSpace(lead) && AllWhiteSpace(trail)
    requires t != [] && IsTrimmed(t)
    ensures Trim(lead + t + trail) == t
  {
    var s := lead + t + trail;
    var a, b := |lead|, |lead| + |t|;
    assert s[a] == t[0] && s[b - 1] == t[|t| - 1];
    assert forall j :: 0 <= j < a ==> IsWhiteSpace(s[j]) by {
      assert forall j :: 0 <= j < a ==> s[j] == lead[j];
    }
    assert forall j :: b <= j < |s| ==> IsWhiteSpace(s[j]) by {
      assert forall j :: b <= j < |s| ==> s[j] == trail[j - b];
    }
    assert TextStart(s, 0) == a;
    assert TextEnd(s, a, |s|) == b;
    assert s[a..b] == t;
  }

  /** A trimmed string is left unchanged by `trim`. */
  lemma TrimmedIsFixed(s: string)
    requires IsTrimmed(s)
    ensures Trim(s) == s
  {
    if s != [] {
      TrimFinds([], s, []);
      assert [] + s + [] == s;
    }
  }

  /** `trim` is idempotent. */
  lemma TrimIdempotent(s: string)
    ensures Trim(Trim(s)) == Trim(s)
  {
    TrimIsTrimmed(s);
    TrimmedIsFixed(Trim(s));
  }

  /** Padding a string with white space on either side does not change its `trim`. */
  lemma TrimIgnoresPadding(lead: string, s: string, trail: string)
    requires AllWhiteSpace(lead) && AllWhiteSpace(trail)
    ensures Trim(lead + s + trail) == Trim(s)
  {
    TrimEmptyIff(s);
    if Trim(s) == [] {
      WhiteSpaceConcat(lead, s);
      WhiteSpaceConcat(lead + s, trail);
      TrimEmptyIff(lead + s + trail);
    } else {
      PaddingAroundText(lead, s, trail);
    }
  }

  /** Concatenation is associative, in the grouping `PaddingAroundText` needs. */
  lemma Regroup(a: string, b: string, c: string, d: string, e: string)
    ensures a + (b + c + d) + e == (a + b) + c + (d + e)
  {
  }

  /** The case of `TrimIgnoresPadding` where `s` holds some text. */
  lemma PaddingAroundText(lead: string, s: string, trail: string)
    requires AllWhiteSpace(lead) && AllWhiteSpace(trail) && Trim(s) != []
    ensures Trim(lead + s + trail) == Trim(s)
  {
    var t := Trim(s);
    TrimSplits(s);
    TrimIsTrimmed(s);
    WhiteSpaceConcat(lead, Lead(s));
    WhiteSpaceConcat(Trail(s), trail);
    Regroup(lead, Lead(s), t, Trail(s), trail);
    TrimFinds(lead + Lead(s), t, Trail(s) + trail);
  }
}
