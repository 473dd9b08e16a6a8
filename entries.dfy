/** The entry pattern of extract_buses (src/map_parser.py:26-31)

      (\d+)\s*(?:–|to|до)\s*([^\d:]+?)(?=каждые|:|\d+\s*мин|завтра)
      (.*?)(?=\d{1,3}\s*(?:–|to|до)|$)

    run by `re.finditer` over the widget text, written as an explicit
    scanner.  At one starting position the scanner tries the alternatives in
    the order Python's backtracking engine does: the greedy `\s*` before the
    name longest first, then for each of its lengths the lazy name shortest
    first, and for each name the lazy time span shortest first.  The leftmost
    position where that succeeds gives the first match; the next search starts
    at the end of that match. */
module EntryPattern {
  import opened Wrappers
  import opened Lexing
  import opened Scanning

  /** One match of the entry pattern, as positions in the text:
      group 1 (the bus number) is `[start, numEnd)`, the separator is
      `[sepStart, sepEnd)`, group 2 (the raw route name) is
      `[nameStart, nameEnd)` and group 3 (the time span) is
      `[nameEnd, spanEnd)`; the match ends at `spanEnd`. */
  datatype Entry = Entry(start: nat, numEnd: nat, sepStart: nat, sepEnd: nat,
                         nameStart: nat, nameEnd: nat, spanEnd: nat)

  // ---------------------------------------------------------------------
  // Group 3 and the lookahead after it
  // ---------------------------------------------------------------------

  /** The lazy `(.*?)` from `f` followed by a lookahead `stop`: the first
      position from `f` on where `stop` holds, provided no line feed lies
      before it (`.` does not match one). */
  function LazyDots(s: string, f: nat, stop: nat -> bool): (r: Option<nat>)
    requires f <= |s|
    ensures r.Some? ==> f <= r.value <= |s| && stop(r.value) && NoNewline(s, f, r.value)
    ensures r.Some? ==> forall h :: f <= h < r.value ==> !stop(h)
    ensures r.None? ==> forall g :: f <= g <= |s| && NoNewline(s, f, g) ==> !stop(g)
    decreases |s| - f
  {
    if stop(f) then Some(f)
    else if f < |s| && s[f] != '\n' then LazyDots(s, f + 1, stop)
    else None
  }

  /** The lookahead after group 3, `(?=\d{1,3}\s*(?:–|to|до)|$)`. */
  function SpanStop(s: string): nat -> bool {
    (f: nat) => SpanStopAt(s, f)
  }

  /** Group 3 from `f` and the lookahead after it: where the match ends. */
  function LazySpanEnd(s: string, f: nat): (r: Option<nat>)
    requires f <= |s|
    ensures r.Some? ==> f <= r.value <= |s| && SpanStopAt(s, r.value) && NoNewline(s, f, r.value)
    ensures r.Some? ==> forall h :: f <= h < r.value ==> !SpanStopAt(s, h)
    ensures r.None? ==> forall g :: f <= g <= |s| && NoNewline(s, f, g) ==> !SpanStopAt(s, g)
  {
    var r := LazyDots(s, f, SpanStop(s));
    assert r.Some? ==> SpanStop(s)(r.value);
    assert forall h: nat :: SpanStop(s)(h) == SpanStopAt(s, h);
    r
  }

  /** Everything after group 2 matches when the name ends at `e`:
      `(?=каждые|:|\d+\s*мин|завтра)(.*?)(?=\d{1,3}\s*(?:–|to|до)|$)`. */
  predicate Continues(s: string, e: nat) {
    e <= |s| && NameStopAt(s, e) && LazySpanEnd(s, e).Some?
  }

  // ---------------------------------------------------------------------
  // Group 2
  // ---------------------------------------------------------------------

  /** `s[k..e]` can be taken by `[^\d:]+?`, and `rest`, the remainder of the
      pattern, matches after it.  The engine is written in continuation
      style: the lazy and greedy parts below try `rest` at each candidate end
      without looking into it. */
  predicate NameFits(s: string, k: nat, e: nat, rest: nat -> bool) {
    k < e <= |s| && NameChars(s, k, e) && rest(e)
  }

  /** The lazy `[^\d:]+?` that started at `k` and has taken `s[k..e]`: the
      shortest extension after which `rest` matches. */
  function LazyName(s: string, k: nat, e: nat, rest: nat -> bool): (r: Option<nat>)
    requires k < e <= |s| && NameChars(s, k, e)
    ensures r.Some? ==> e <= r.value && NameFits(s, k, r.value, rest)
    ensures r.Some? ==> forall e' :: e <= e' < r.value ==> !NameFits(s, k, e', rest)
    ensures r.None? ==> forall e' :: e <= e' ==> !NameFits(s, k, e', rest)
    decreases |s| - e
  {
    if rest(e) then Some(e)
    else if e < |s| && IsNameChar(s[e]) then LazyName(s, k, e + 1, rest)
    else None
  }

  /** When the lazy name that starts at `k` finds no end, no name starting at
      `k` fits. */
  lemma NoNameFrom(s: string, k: nat, rest: nat -> bool)
    requires k <= |s|
    requires !(k < |s| && IsNameChar(s[k]) && LazyName(s, k, k + 1, rest).Some?)
    ensures forall e' :: !NameFits(s, k, e', rest)
  {
  }

  /** Group 2 after the separator ending at `b`, when the greedy `\s*` before
      it has taken `s[b..k]`: the name may start at `k`; failing that the
      `\s*` gives back one character at a time, down to none.  Returns the
      name's start and end. */
  function NameAfter(s: string, b: nat, k: nat, rest: nat -> bool): (r: Option<(nat, nat)>)
    requires b <= k <= |s|
    ensures r.Some? ==> b <= r.value.0 <= k && NameFits(s, r.value.0, r.value.1, rest)
    ensures r.Some? ==> forall e': nat :: e' < r.value.1 ==> !NameFits(s, r.value.0, e', rest)
    ensures r.Some? ==> forall k', e' :: r.value.0 < k' <= k ==> !NameFits(s, k', e', rest)
    ensures r.None? ==> forall k', e' :: b <= k' <= k ==> !NameFits(s, k', e', rest)
    decreases k - b
  {
    if k < |s| && IsNameChar(s[k]) && LazyName(s, k, k + 1, rest).Some? then
      Some((k, LazyName(s, k, k + 1, rest).value))
    else
      NoNameFrom(s, k, rest);
      if b < k then NameAfter(s, b, k - 1, rest) else None
  }

  /** The remainder of the entry pattern after group 2, as a continuation. */
  function AfterName(s: string): nat -> bool {
    (e: nat) => Continues(s, e)
  }

  // ---------------------------------------------------------------------
  // One match at a given position
  // ---------------------------------------------------------------------

  /** Everything the pattern demands of a match `m` found at `m.start`, and
      that it is the one the engine tries first. */
  ghost predicate IsEntry(s: string, m: Entry) {
    // group 1: the whole digit run at the start
    && m.start < m.numEnd <= |s|
    && m.numEnd == DigitEnd(s, m.start)
    // `\s*` and the separator
    && m.sepStart == SpaceEnd(s, m.numEnd)
    && SeparatorLen(s, m.sepStart) > 0
    && m.sepEnd == m.sepStart + SeparatorLen(s, m.sepStart)
    // `\s*` before the name, then group 2 and group 3
    && m.sepEnd <= m.nameStart <= SpaceEnd(s, m.sepEnd)
    && NameFits(s, m.nameStart, m.nameEnd, AfterName(s))
    && LazySpanEnd(s, m.nameEnd) == Some(m.spanEnd)
    // first in the engine's order: longer `\s*` before the name fails,
    // and so does a shorter name
    && (forall k', e' :: m.nameStart < k' <= SpaceEnd(s, m.sepEnd) ==> !NameFits(s, k', e', AfterName(s)))
    && (forall e': nat :: e' < m.nameEnd ==> !NameFits(s, m.nameStart, e', AfterName(s)))
  }

  /** The pattern matches at no starting position `p`. */
  ghost predicate NoEntryAt(s: string, p: nat) {
    || p >= |s|
    || !IsDigit(s[p])
    || SeparatorLen(s, SpaceEnd(s, DigitEnd(s, p))) == 0
    || (var b := SpaceEnd(s, DigitEnd(s, p)) + SeparatorLen(s, SpaceEnd(s, DigitEnd(s, p)));
        b <= |s| && forall k', e' :: b <= k' <= SpaceEnd(s, b) ==> !NameFits(s, k', e', AfterName(s)))
  }

  /** The match of the entry pattern that starts exactly at `p`, if any. */
  function EntryAt(s: string, p: nat): (r: Option<Entry>)
    ensures r.Some? ==> r.value.start == p && IsEntry(s, r.value)
    ensures r.None? ==> NoEntryAt(s, p)
  {
    if p < |s| && IsDigit(s[p]) then
      var d := DigitEnd(s, p);
      var w := SpaceEnd(s, d);
      var n := SeparatorLen(s, w);
      if n == 0 then None
      else
        var b := w + n;
        match NameAfter(s, b, SpaceEnd(s, b), AfterName(s))
        case None => None
        case Some((k, e)) =>
          Some(Entry(p, d, w, b, k, e, LazySpanEnd(s, e).value))
    else None
  }

  /** The parts of `m` lie in order inside `s`, group 1 is a non-empty run
      of digits and group 2 a non-empty run of name characters. */
  predicate Placed(s: string, m: Entry) {
    && m.start < m.numEnd <= m.sepStart < m.sepEnd <= m.nameStart < m.nameEnd <= m.spanEnd <= |s|
    && Digits(s, m.start, m.numEnd)
    && NameChars(s, m.nameStart, m.nameEnd)
  }

  /** Every match is placed so. */
  lemma EntryShape(s: string, m: Entry)
    requires IsEntry(s, m)
    ensures Placed(s, m)
  {
  }

  // ---------------------------------------------------------------------
  // `re.finditer`
  // ---------------------------------------------------------------------

  /** The entry pattern tried at each position of `s`: the end of its match. */
  function EntryMatch(s: string): (matchAt: nat -> Option<nat>)
    ensures Advances(|s|, matchAt)
  {
    i => if EntryAt(s, i).Some? then Some(EntryAt(s, i).value.spanEnd) else None
  }

  /** Every match `finditer` yields, in order. */
  function Entries(s: string): (r: seq<Entry>)
    ensures forall k :: 0 <= k < |r| ==> EntryAt(s, r[k].start) == Some(r[k])
  {
    var spans := Scan(|s|, 0, EntryMatch(s));
    seq(|spans|, k requires 0 <= k < |spans| => EntryAt(s, spans[k].start).value)
  }

  /** Every match `finditer` yields is placed in order inside the text. */
  lemma EntriesPlaced(s: string)
    ensures var r := Entries(s); forall k :: 0 <= k < |r| ==> Placed(s, r[k])
  {
    var r := Entries(s);
    forall k | 0 <= k < |r| ensures Placed(s, r[k]) {
      EntryShape(s, r[k]);
    }
  }

  /** Position `q` lies inside one of the matches `r`. */
  predicate Inside(r: seq<Entry>, q: nat) {
    exists k :: 0 <= k < |r| && r[k].start <= q < r[k].spanEnd
  }

  /** `finditer` yields its matches from left to right without overlap. */
  lemma EntriesInOrder(s: string)
    ensures var r := Entries(s);
            forall i, j :: 0 <= i < j < |r| ==> r[i].spanEnd <= r[j].start
  {
    var spans := Scan(|s|, 0, EntryMatch(s));
    forall k | 0 <= k < |spans| ensures Entries(s)[k].spanEnd == spans[k].end {
      assert EntryMatch(s)(spans[k].start) == Some(spans[k].end);
    }
  }

  /** `finditer` misses nothing: every position at which the pattern can
      match lies inside one of the matches it yields. */
  lemma EntriesMissNothing(s: string, q: nat)
    requires EntryAt(s, q).Some?
    ensures Inside(Entries(s), q)
  {
    var spans := Scan(|s|, 0, EntryMatch(s));
    var r := Entries(s);
    assert EntryMatch(s)(q).Some?;
    NothingSkipped(|s|, 0, EntryMatch(s), q);
    var k :| 0 <= k < |spans| && spans[k].start <= q < spans[k].end;
    assert EntryMatch(s)(spans[k].start) == Some(spans[k].end);
    assert r[k] == EntryAt(s, spans[k].start).value;
    assert r[k].start <= q < r[k].spanEnd;
  }
}
