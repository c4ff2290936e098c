/**
  Character classes and the two small sequence searches the parser is built
  from. The C library's `isalpha`, `isdigit` and `isalnum` are modelled in the
  "C" locale, that is on ASCII letters and digits only.
 */
module Text {

  predicate IsAlpha(c: char) {
    ('a' <= c <= 'z') || ('A' <= c <= 'Z')
  }

  predicate IsDigit(c: char) {
    '0' <= c <= '9'
  }

  predicate IsAlnum(c: char) {
    IsAlpha(c) || IsDigit(c)
  }

  /** A character that starts a number at top level: a digit or a sign. */
  predicate IsNumberStart(c: char) {
    IsDigit(c) || c == '+' || c == '-'
  }

  /** A character the number scanner keeps. */
  predicate IsNumberChar(c: char) {
    IsDigit(c) || c == '.' || c == '+' || c == '-'
  }

  /** The two characters that close a value: a separator or a closing bracket. */
  predicate IsTerminator(c: char) {
    c == ',' || c == ']'
  }

  predicate IsOpenBracket(c: char) {
    c == '['
  }

  predicate IsQuote(c: char) {
    c == '"'
  }

  /** Every character of `s` satisfies `keep`. */
  predicate AllChars(keep: char -> bool, s: string) {
    forall k :: 0 <= k < |s| ==> keep(s[k])
  }

  /** A text that the identifier scanner can produce: a letter, then letters and digits. */
  predicate IsIdentifier(s: string) {
    |s| > 0 && IsAlpha(s[0]) && AllChars(IsAlnum, s)
  }

  /**
    Linear search in the manner of `std::find_if`: the index of the first
    character at or after `from` that satisfies `stop`, or `|s|` when there is
    none.
   */
  function FindFirst(stop: char -> bool, s: string, from: nat): (k: nat)
    requires from <= |s|
    ensures from <= k <= |s|
    ensures k < |s| ==> stop(s[k])
    ensures forall j :: from <= j < k ==> !stop(s[j])
    decreases |s| - from
  {
    if from == |s| then from
    else if stop(s[from]) then from
    else FindFirst(stop, s, from + 1)
  }

  /** `std::find` for one character: `c` occurs in `s` iff the search stops before the end. */
  function FindChar(s: string, c: char): (k: nat)
    ensures k <= |s|
    ensures k < |s| <==> c in s
    ensures k < |s| ==> s[k] == c
  {
    FindFirst(x => x == c, s, 0)
  }

  /** The characters of `s[lo..hi]` that satisfy `keep`, in order. */
  function Filter(keep: char -> bool, s: string, lo: nat, hi: nat): (r: string)
    requires lo <= hi <= |s|
    ensures AllChars(keep, r)
    ensures |r| <= hi - lo
    decreases hi - lo
  {
    if lo == hi then []
    else if keep(s[lo]) then [s[lo]] + Filter(keep, s, lo + 1, hi)
    else Filter(keep, s, lo + 1, hi)
  }

  /** Filtering a stretch whose characters all pass keeps the stretch verbatim. */
  lemma {:induction false} FilterKeepsAll(keep: char -> bool, s: string, lo: nat, hi: nat)
    requires lo <= hi <= |s|
    requires forall k :: lo <= k < hi ==> keep(s[k])
    ensures Filter(keep, s, lo, hi) == s[lo..hi]
    decreases hi - lo
  {
    if lo < hi {
      FilterKeepsAll(keep, s, lo + 1, hi);
      assert s[lo..hi] == [s[lo]] + s[lo + 1..hi];
    }
  }
}
