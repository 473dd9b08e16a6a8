/** Character classes, runs and lookahead conditions used by the arrival-text
    scanner (src/map_parser.py, extract_buses).  Every regular-expression atom
    of the source pattern is given here as a predicate or function over a
    position in the text, together with a lemma tying the scanner's
    maximal-run reading to the regular expression's own (existential)
    reading of the same atom. */
module Lexing {

  // ---------------------------------------------------------------------
  // Character classes
  // ---------------------------------------------------------------------

  /** `\d`, restricted to the ASCII digits. */
  predicate IsDigit(c: char) {
    '0' <= c <= '9'
  }

  /** `\s` on a `str` pattern: exactly the characters for which Python's
      `str.isspace()` holds. */
  predicate IsSpace(c: char) {
    || '\t' <= c <= '\r'
    || '\U{1C}' <= c <= '\U{1F}'
    || c == ' '
    || c == '\U{85}'
    || c == '\U{A0}'
    || c == '\U{1680}'
    || '\U{2000}' <= c <= '\U{200A}'
    || c == '\U{2028}'
    || c == '\U{2029}'
    || c == '\U{202F}'
    || c == '\U{205F}'
    || c == '\U{3000}'
  }

  /** `[^\d:]`, the class the route name is drawn from. */
  predicate IsNameChar(c: char) {
    !IsDigit(c) && c != ':'
  }

  // ---------------------------------------------------------------------
  // Ranges of a text
  // ---------------------------------------------------------------------

  predicate Digits(s: string, i: nat, j: nat)
    requires i <= j <= |s|
  {
    forall k :: i <= k < j ==> IsDigit(s[k])
  }

  predicate Spaces(s: string, i: nat, j: nat)
    requires i <= j <= |s|
  {
    forall k :: i <= k < j ==> IsSpace(s[k])
  }

  predicate NameChars(s: string, i: nat, j: nat)
    requires i <= j <= |s|
  {
    forall k :: i <= k < j ==> IsNameChar(s[k])
  }

  /** `.` matches every character but a line feed. */
  predicate NoNewline(s: string, i: nat, j: nat)
    requires i <= j <= |s|
  {
    forall k :: i <= k < j ==> s[k] != '\n'
  }

  /** The word `w` occurs in `s` at position `i`. */
  predicate At(s: string, i: nat, w: string) {
    i + |w| <= |s| && forall j :: 0 <= j < |w| ==> s[i + j] == w[j]
  }

  /** End of the longest run of digits starting at `i` (greedy `\d*`). */
  function DigitEnd(s: string, i: nat): (j: nat)
    requires i <= |s|
    ensures i <= j <= |s|
    ensures Digits(s, i, j)
    ensures j < |s| ==> !IsDigit(s[j])
    decreases |s| - i
  {
    if i < |s| && IsDigit(s[i]) then DigitEnd(s, i + 1) else i
  }

  /** End of the longest run of whitespace starting at `i` (greedy `\s*`). */
  function SpaceEnd(s: string, i: nat): (j: nat)
    requires i <= |s|
    ensures i <= j <= |s|
    ensures Spaces(s, i, j)
    ensures j < |s| ==> !IsSpace(s[j])
    decreases |s| - i
  {
    if i < |s| && IsSpace(s[i]) then SpaceEnd(s, i + 1) else i
  }

  // ---------------------------------------------------------------------
  // Fixed words of the pattern
  // ---------------------------------------------------------------------

  const EnDash: string := "–"
  const To: string := "to"
  const Do: string := "до"
  const Minutes: string := "мин"
  const Every: string := "каждые"
  const Tomorrow: string := "завтра"

  /** Length of the separator `(?:–|to|до)` at `i`, or 0 when none is there. */
  function SeparatorLen(s: string, i: nat): (n: nat)
    ensures n <= 2
    ensures n > 0 <==> At(s, i, EnDash) || At(s, i, To) || At(s, i, Do)
    ensures n == 1 ==> At(s, i, EnDash)
    ensures n == 2 ==> At(s, i, To) || At(s, i, Do)
  {
    if At(s, i, EnDash) then 1
    else if At(s, i, To) || At(s, i, Do) then 2
    else 0
  }

  /** A separator starts with a character that is neither a digit nor
      whitespace. */
  lemma SeparatorHead(s: string, i: nat)
    requires SeparatorLen(s, i) > 0
    ensures i < |s| && !IsDigit(s[i]) && !IsSpace(s[i])
  {
    if At(s, i, EnDash) {
      assert s[i] == EnDash[0];
    } else if At(s, i, To) {
      assert s[i] == To[0];
    } else {
      assert s[i] == Do[0];
    }
  }

  // ---------------------------------------------------------------------
  // Composite atoms, read with maximal runs
  // ---------------------------------------------------------------------

  /** `\d+\s*мин` matches at `i`.  A shorter digit run or a shorter
      whitespace run would leave a digit or a space where the next atom
      needs something else, so only the maximal runs can succeed. */
  predicate TimeTokenAt(s: string, i: nat) {
    i < |s| && IsDigit(s[i]) && At(s, SpaceEnd(s, DigitEnd(s, i)), Minutes)
  }

  /** Where the `\d+\s*мин` match at `i` ends. */
  function TimeTokenEnd(s: string, i: nat): (j: nat)
    requires TimeTokenAt(s, i)
    ensures i < j <= |s|
  {
    SpaceEnd(s, DigitEnd(s, i)) + |Minutes|
  }

  /** The lookahead that ends a route name:
      `(?=каждые|:|\d+\s*мин|завтра)`. */
  predicate NameStopAt(s: string, e: nat) {
    || At(s, e, Every)
    || (e < |s| && s[e] == ':')
    || TimeTokenAt(s, e)
    || At(s, e, Tomorrow)
  }

  /** The lookahead that ends an entry's time span, first alternative:
      `\d{1,3}\s*(?:–|to|до)`.  More than three digits in the run leave a
      digit where whitespace or a separator is needed. */
  predicate EntryStartAt(s: string, f: nat) {
    f < |s| && IsDigit(s[f]) && DigitEnd(s, f) - f <= 3
    && SeparatorLen(s, SpaceEnd(s, DigitEnd(s, f))) > 0
  }

  /** `$` without MULTILINE: the end of the text, or just before a final
      line feed. */
  predicate EndAnchorAt(s: string, f: nat) {
    f == |s| || (f + 1 == |s| && s[f] == '\n')
  }

  /** The whole lookahead `(?=\d{1,3}\s*(?:–|to|до)|$)`. */
  predicate SpanStopAt(s: string, f: nat) {
    EntryStartAt(s, f) || EndAnchorAt(s, f)
  }

  // ---------------------------------------------------------------------
  // The regular expression's own reading of the composite atoms
  // ---------------------------------------------------------------------

  /** Some digits (at least one) from `i` to `d`, then whitespace up to `w`. */
  ghost predicate RunSplit(s: string, i: nat, d: nat, w: nat) {
    i < d <= w <= |s| && Digits(s, i, d) && Spaces(s, d, w)
  }

  /** A run of digits that is followed by a non-digit is the maximal one. */
  lemma DigitEndOfRun(s: string, i: nat, d: nat)
    requires i <= d <= |s| && Digits(s, i, d)
    requires d == |s| || !IsDigit(s[d])
    ensures DigitEnd(s, i) == d
    decreases d - i
  {
    if i < d {
      DigitEndOfRun(s, i + 1, d);
    }
  }

  /** A run of whitespace that is followed by a non-space is the maximal one. */
  lemma SpaceEndOfRun(s: string, i: nat, w: nat)
    requires i <= w <= |s| && Spaces(s, i, w)
    requires w == |s| || !IsSpace(s[w])
    ensures SpaceEnd(s, i) == w
    decreases w - i
  {
    if i < w {
      SpaceEndOfRun(s, i + 1, w);
    }
  }

  /** Any split of digits and whitespace that is followed by a character that
      is neither is the split into maximal runs. */
  lemma RunSplitIsMaximal(s: string, i: nat, d: nat, w: nat)
    requires RunSplit(s, i, d, w)
    requires w < |s| && !IsDigit(s[w]) && !IsSpace(s[w])
    ensures d == DigitEnd(s, i) && w == SpaceEnd(s, d)
  {
    if d < w {
      assert IsSpace(s[d]);
    }
    DigitEndOfRun(s, i, d);
    SpaceEndOfRun(s, d, w);
  }

  /** `\d+\s*мин` read as a regular expression: some split of digits and
      whitespace followed by the word. */
  ghost predicate TimeTokenSplit(s: string, i: nat, d: nat, w: nat) {
    RunSplit(s, i, d, w) && At(s, w, Minutes)
  }

  /** The maximal-run reading of `\d+\s*мин` agrees with the regular
      expression: a match exists exactly when the scanner sees one, and it is
      the one the scanner takes. */
  lemma TimeTokenMatchesRegex(s: string, i: nat)
    ensures TimeTokenAt(s, i) <==> exists d: nat, w: nat :: TimeTokenSplit(s, i, d, w)
    ensures forall d: nat, w: nat :: TimeTokenSplit(s, i, d, w) ==>
              TimeTokenAt(s, i) && w + |Minutes| == TimeTokenEnd(s, i)
  {
    forall d: nat, w: nat | TimeTokenSplit(s, i, d, w)
      ensures TimeTokenAt(s, i) && w + |Minutes| == TimeTokenEnd(s, i)
    {
      assert s[w] == Minutes[0];
      RunSplitIsMaximal(s, i, d, w);
    }
    if TimeTokenAt(s, i) {
      var d := DigitEnd(s, i);
      assert TimeTokenSplit(s, i, d, SpaceEnd(s, d));
    }
  }

  /** `\d{1,3}\s*(?:–|to|до)` read as a regular expression. */
  ghost predicate EntryStartSplit(s: string, f: nat, d: nat, w: nat) {
    RunSplit(s, f, d, w) && d - f <= 3 && SeparatorLen(s, w) > 0
  }

  /** The scanner's reading of the span-ending lookahead agrees with the
      regular expression, including the bound of three digits. */
  lemma EntryStartMatchesRegex(s: string, f: nat)
    ensures EntryStartAt(s, f) <==> exists d: nat, w: nat :: EntryStartSplit(s, f, d, w)
  {
    if d: nat, w: nat :| EntryStartSplit(s, f, d, w) {
      SeparatorHead(s, w);
      RunSplitIsMaximal(s, f, d, w);
    }
    if EntryStartAt(s, f) {
      var d := DigitEnd(s, f);
      assert EntryStartSplit(s, f, d, SpaceEnd(s, d));
    }
  }

  /** The head `(\d+)\s*(?:–|to|до)` of the entry pattern can only match with
      the maximal digit run and the maximal whitespace run, so group 1 is
      always the whole digit run at its start. */
  lemma HeadIsMaximal(s: string, p: nat, d: nat, w: nat)
    requires RunSplit(s, p, d, w) && SeparatorLen(s, w) > 0
    ensures d == DigitEnd(s, p) && w == SpaceEnd(s, d)
  {
    SeparatorHead(s, w);
    RunSplitIsMaximal(s, p, d, w);
  }
}
