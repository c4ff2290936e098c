/**
  The whitespace predicate and the three cursor-based scanners of
  geo_parser.h. Each scanner is the source's `for` loop written as a
  recursion on the cursor: `acc` is the string stream being filled and
  `result` the error seen so far. `out` is the caller's output string, which a
  scanner only overwrites when it meets its terminator.
 */
module Lexer {
  import opened Text
  import opened Tokens

  /** What a scanner hands back: its error, the output string and the final cursor. */
  datatype Scan = Scan(error: ParserError, output: string, cursor: nat)

  const SkipChars: string := [' ', '\t', '\n', '\r']

  /** Whitespace the parser skips outside quoted strings. */
  function Skip(c: char): (b: bool)
    ensures b <==> c == ' ' || c == '\t' || c == '\n' || c == '\r'
  {
    c in SkipChars
  }

  /** Some character of `s[lo..hi]` is neither kept by the scanner nor skippable whitespace. */
  predicate Stray(keep: char -> bool, s: string, lo: nat, hi: nat)
    requires lo <= hi <= |s|
  {
    exists k :: lo <= k < hi && !keep(s[k]) && !Skip(s[k])
  }

  // ---------------------------------------------------------------- processAlpha

  /**
    Scans an array name from `i`: the cursor ends on the first '[' or at the
    end of input. The name is the alphanumeric characters before it, so
    whitespace is dropped; the error is a syntax error exactly when some
    character before it is neither alphanumeric nor whitespace, and a later
    character never clears it. Without a '[' the output stays `out`.
   */
  function ProcessAlpha(out: string, s: string, i: nat): (r: Scan)
    requires i <= |s|
    ensures i <= r.cursor <= |s|
    ensures r.cursor < |s| ==> s[r.cursor] == '['
    ensures forall k :: i <= k < r.cursor ==> s[k] != '['
    ensures r.output == if r.cursor < |s| then Filter(IsAlnum, s, i, r.cursor) else out
    ensures r.error == if Stray(IsAlnum, s, i, r.cursor) then SyntaxError else NoError
  {
    AlphaLoop(out, s, i, i, [], NoError)
  }

  function AlphaLoop(out: string, s: string, i: nat, k: nat, acc: string, result: ParserError): (r: Scan)
    requires i <= k <= |s|
    requires result == NoError || result == SyntaxError
    requires acc == Filter(IsAlnum, s, i, k)
    requires result == SyntaxError <==> Stray(IsAlnum, s, i, k)
    ensures r.cursor == FindFirst(IsOpenBracket, s, k)
    ensures r.output == if r.cursor < |s| then Filter(IsAlnum, s, i, r.cursor) else out
    ensures r.error == if Stray(IsAlnum, s, i, r.cursor) then SyntaxError else NoError
    decreases |s| - k
  {
    if k == |s| then Scan(result, out, k)
    else if s[k] == '[' then Scan(result, acc, k)
    else
      var (acc', result') := Consume(IsAlnum, s[k], acc, result);
      ConsumeExtends(IsAlnum, s, i, k, acc, result);
      assert FindFirst(IsOpenBracket, s, k) == FindFirst(IsOpenBracket, s, k + 1);
      AlphaLoop(out, s, i, k + 1, acc', result')
  }

  // ---------------------------------------------------------------- processDigit

  /**
    Scans a number from `i`. It keeps digits, '.', '+' and '-' in any mix and
    drops whitespace. It stops at the first ',' or ']' with the cursor one
    position BEFORE it, so that the caller's increment lands on it; with no
    terminator the cursor is at the end and the output stays `out`. The error
    is a syntax error exactly when some character before the stop is none of
    those.
    The source steps the cursor back before a terminator, which is undefined
    if the terminator is the very first character of the input; the
    precondition rules that one call out.
   */
  function ProcessDigit(out: string, s: string, i: nat): (r: Scan)
    requires i <= |s|
    requires i == 0 && i < |s| ==> !IsTerminator(s[i])
    ensures var stop := FindFirst(IsTerminator, s, i);
      && r.cursor == (if stop < |s| then stop - 1 else |s|)
      && r.output == (if stop < |s| then Filter(IsNumberChar, s, i, stop) else out)
      && r.error == if Stray(IsNumberChar, s, i, stop) then SyntaxError else NoError
  {
    DigitLoop(out, s, i, i, [], NoError)
  }

  function DigitLoop(out: string, s: string, i: nat, k: nat, acc: string, result: ParserError): (r: Scan)
    requires i <= k <= |s|
    requires k == 0 && k < |s| ==> !IsTerminator(s[k])
    requires result == NoError || result == SyntaxError
    requires acc == Filter(IsNumberChar, s, i, k)
    requires result == SyntaxError <==> Stray(IsNumberChar, s, i, k)
    ensures var stop := FindFirst(IsTerminator, s, k);
      && r.cursor == (if stop < |s| then stop - 1 else |s|)
      && r.output == (if stop < |s| then Filter(IsNumberChar, s, i, stop) else out)
      && r.error == if Stray(IsNumberChar, s, i, stop) then SyntaxError else NoError
    decreases |s| - k
  {
    if k == |s| then Scan(result, out, k)
    else if IsTerminator(s[k]) then
      assert FindFirst(IsTerminator, s, k) == k;
      Scan(result, acc, k - 1)
    else
      var (acc', result') := Consume(IsNumberChar, s[k], acc, result);
      ConsumeExtends(IsNumberChar, s, i, k, acc, result);
      assert FindFirst(IsTerminator, s, k) == FindFirst(IsTerminator, s, k + 1);
      DigitLoop(out, s, i, k + 1, acc', result')
  }

  // ---------------------------------------------------------------- processString

  /**
    Scans a string body from `i` (just after the opening quote). The cursor
    ends on the first double quote and the body is every character before it,
    verbatim, commas and brackets included; with no closing quote the error
    is `UnclosedQuotes` and the output stays `out`.
   */
  function ProcessString(out: string, s: string, i: nat): (r: Scan)
    requires i <= |s|
    ensures i <= r.cursor <= |s|
    ensures r.cursor < |s| ==> IsQuote(s[r.cursor])
    ensures forall k :: i <= k < r.cursor ==> !IsQuote(s[k])
    ensures r.error == if r.cursor == |s| then UnclosedQuotes else NoError
    ensures r.cursor < |s| ==> |r.output| == r.cursor - i && forall k :: i <= k < r.cursor ==> r.output[k - i] == s[k]
    ensures r.cursor == |s| ==> r.output == out
  {
    StringLoop(out, s, i, i, [])
  }

  function StringLoop(out: string, s: string, i: nat, k: nat, acc: string): (r: Scan)
    requires i <= k <= |s|
    requires acc == s[i..k]
    ensures r.cursor == FindFirst(IsQuote, s, k)
    ensures r.error == if r.cursor == |s| then UnclosedQuotes else NoError
    ensures r.cursor < |s| ==> |r.output| == r.cursor - i && forall j :: i <= j < r.cursor ==> r.output[j - i] == s[j]
    ensures r.cursor == |s| ==> r.output == out
    decreases |s| - k
  {
    if k == |s| then Scan(UnclosedQuotes, out, k)
    else if IsQuote(s[k]) then Scan(NoError, acc, k)
    else
      assert s[i..k + 1] == s[i..k] + [s[k]];
      StringLoop(out, s, i, k + 1, acc + [s[k]])
  }

  // ---------------------------------------------------------------- helpers

  /**
    One iteration of the name and number loops: a kept character is appended,
    whitespace is dropped, and anything else records a syntax error while the
    scan goes on.
   */
  function Consume(keep: char -> bool, c: char, acc: string, result: ParserError): (string, ParserError) {
    if keep(c) then (acc + [c], result)
    else if Skip(c) then (acc, result)
    else (acc, SyntaxError)
  }

  /** One iteration keeps the loop invariant: the filtered text and the stray flag so far. */
  lemma ConsumeExtends(keep: char -> bool, s: string, i: nat, k: nat, acc: string, result: ParserError)
    requires i <= k < |s|
    requires result == NoError || result == SyntaxError
    requires acc == Filter(keep, s, i, k)
    requires result == SyntaxError <==> Stray(keep, s, i, k)
    ensures var (acc', result') := Consume(keep, s[k], acc, result);
      && (result' == NoError || result' == SyntaxError)
      && acc' == Filter(keep, s, i, k + 1)
      && (result' == SyntaxError <==> Stray(keep, s, i, k + 1))
  {
    FilterExtend(keep, s, i, k);
    StrayExtend(keep, s, i, k);
  }

  /** Extending a filtered stretch by one character. */
  lemma {:induction false} FilterExtend(keep: char -> bool, s: string, lo: nat, hi: nat)
    requires lo <= hi < |s|
    ensures Filter(keep, s, lo, hi + 1) == Filter(keep, s, lo, hi) + (if keep(s[hi]) then [s[hi]] else [])
    decreases hi - lo
  {
    if lo < hi {
      FilterExtend(keep, s, lo + 1, hi);
    }
  }

  /** A stretch has a stray character iff its shorter prefix has one or its last character is one. */
  lemma StrayExtend(keep: char -> bool, s: string, lo: nat, hi: nat)
    requires lo <= hi < |s|
    ensures Stray(keep, s, lo, hi + 1) <==> Stray(keep, s, lo, hi) || (!keep(s[hi]) && !Skip(s[hi]))
  {
    if !keep(s[hi]) && !Skip(s[hi]) {
      assert lo <= hi < hi + 1;
    }
  }
}
