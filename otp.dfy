/**
 * The one-time-code search of main.py:112-113: the leftmost match of
 * `\b\d{3}[- ]?\d{3}\b|\b\d{6}\b` in the message, or "N/A".
 * `\d` is an ASCII digit and `\b` sits between a word and a non-word character
 * (word characters being ASCII letters, digits and `_`).
 */
module Otp {
  import opened Text

  const NoCode: string := "N/A"

  /** `\b` at position `p` of `s` (0 <= p <= |s|). */
  predicate Boundary(s: string, p: nat)
    requires p <= |s|
  {
    (p > 0 && IsWordChar(s[p - 1])) != (p < |s| && IsWordChar(s[p]))
  }

  predicate DigitsAt(s: string, i: nat, n: nat) {
    i + n <= |s| && forall k :: i <= k < i + n ==> IsAsciiDigit(s[k])
  }

  predicate IsSeparator(c: char) {
    c == '-' || c == ' '
  }

  /** First alternative with the optional separator present: `\b\d{3}[- ]\d{3}\b`. */
  predicate SplitAt(s: string, i: nat) {
    i + 7 <= |s| && Boundary(s, i) && DigitsAt(s, i, 3) && IsSeparator(s[i + 3])
    && DigitsAt(s, i + 4, 3) && Boundary(s, i + 7)
  }

  /** First alternative with the separator absent: `\b\d{3}\d{3}\b`. */
  predicate UnsplitAt(s: string, i: nat) {
    i + 6 <= |s| && Boundary(s, i) && DigitsAt(s, i, 3) && DigitsAt(s, i + 3, 3) && Boundary(s, i + 6)
  }

  /** The second alternative: `\b\d{6}\b`. */
  predicate RunAt(s: string, i: nat) {
    i + 6 <= |s| && Boundary(s, i) && DigitsAt(s, i, 6) && Boundary(s, i + 6)
  }

  /**
   * The length of the match the regular-expression engine reports when it tries position `i`:
   * the greedy `[- ]?` is tried with the separator first, then without it, then the second alternative.
   */
  function MatchAt(s: string, i: nat): (r: Option<nat>)
    ensures r == Some(7) <==> SplitAt(s, i)
    ensures r == Some(6) <==> UnsplitAt(s, i)
    ensures r.Some? ==> r == Some(6) || r == Some(7)
  {
    // The second alternative is not tried: it matches exactly where UnsplitAt does (SecondAlternativeRedundant).
    if SplitAt(s, i) then Some(7)
    else if UnsplitAt(s, i) then Some(6)
    else None
  }

  /** Something matches at position `i`. */
  predicate Matches(s: string, i: nat) {
    MatchAt(s, i).Some?
  }

  /** Where a match starts and how many characters it covers. */
  datatype Hit = Hit(start: nat, len: nat)

  /** The scan of `re.search`: the first position at or after `from` where a match starts, and its length. */
  function SearchFrom(s: string, from: nat): (r: Option<Hit>)
    requires from <= |s| + 1
    ensures r.None? <==> forall i :: from <= i <= |s| ==> !Matches(s, i)
    ensures r.Some? ==>
      (from <= r.value.start <= |s|
       && MatchAt(s, r.value.start) == Some(r.value.len)
       && r.value.start + r.value.len <= |s|
       && forall i :: from <= i < r.value.start ==> !Matches(s, i))
    decreases |s| + 1 - from
  {
    if from > |s| then None
    else match MatchAt(s, from)
      case Some(n) =>
        assert Matches(s, from);
        Some(Hit(from, n))
      case None => SearchFrom(s, from + 1)
  }

  /** `otp_match.group(0) if otp_match else "N/A"`. */
  function Extract(s: string): string {
    match SearchFrom(s, 0)
    case None => NoCode
    case Some(h) => s[h.start..h.start + h.len]
  }

  /** The second alternative matches exactly where the first one does without its separator, so it never changes the result. */
  lemma SecondAlternativeRedundant(s: string, i: nat)
    ensures RunAt(s, i) <==> UnsplitAt(s, i)
    ensures RunAt(s, i) ==> MatchAt(s, i) == Some(6)
  {
  }

  /** "N/A" appears exactly when no position of the message matches. */
  lemma ExtractNoMatch(s: string)
    ensures Extract(s) == NoCode <==> forall i :: 0 <= i <= |s| ==> !Matches(s, i)
  {
  }

  /**
   * When `i` is the leftmost position where the pattern matches, the code is the text
   * matched there: a substring of the message bounded by `\b` on both sides, six digits or
   * three digits, one `-` or space, and three digits.
   */
  lemma ExtractLeftmost(s: string, i: nat)
    requires i <= |s| && Matches(s, i)
    requires forall j :: 0 <= j < i ==> !Matches(s, j)
    ensures var n := MatchAt(s, i).value;
      i + n <= |s| && Extract(s) == s[i..i + n]
      && Boundary(s, i) && Boundary(s, i + n)
      && ((n == 6 && DigitsAt(s, i, 6))
          || (n == 7 && DigitsAt(s, i, 3) && IsSeparator(s[i + 3]) && DigitsAt(s, i + 4, 3)))
  {
    var r := SearchFrom(s, 0);
    assert r.Some?;
    assert Matches(s, r.value.start);
  }

  /** Shape of any returned code: "N/A", six digits, or 3 + separator + 3 digits. */
  lemma ExtractShape(s: string)
    ensures var c := Extract(s);
      c == NoCode
      || (|c| == 6 && DigitsAt(c, 0, 6))
      || (|c| == 7 && DigitsAt(c, 0, 3) && IsSeparator(c[3]) && DigitsAt(c, 4, 3))
  {
  }
}
