/** The search loop shared by `re.finditer` (src/map_parser.py:31) and
    `re.findall` (src/map_parser.py:34).  Both try the pattern at every
    position from left to right; where it matches they take the match and
    resume the search at its end, elsewhere they move on by one position.
    The patterns of extract_buses never match the empty string, so the
    engine's special handling of empty matches never comes into play. */
module Scanning {
  import opened Wrappers

  /** Positions `[start, end)` of one match in the scanned text. */
  datatype Span = Span(start: nat, end: nat)

  /** `matchAt(i)` is the end of the match that starts at `i`, if the pattern
      matches there.  Every match is non-empty and ends within the text of
      length `n`. */
  ghost predicate Advances(n: nat, matchAt: nat -> Option<nat>) {
    forall i: nat :: matchAt(i).Some? ==> i < matchAt(i).value <= n
  }

  /** The matches found by scanning positions `p` to `n`, in text order. */
  function Scan(n: nat, p: nat, matchAt: nat -> Option<nat>): (r: seq<Span>)
    requires p <= n && Advances(n, matchAt)
    ensures forall k :: 0 <= k < |r| ==> p <= r[k].start && matchAt(r[k].start) == Some(r[k].end)
    ensures forall i, j :: 0 <= i < j < |r| ==> r[i].end <= r[j].start
    decreases n - p
  {
    if p == n then []
    else
      match matchAt(p)
      case Some(e) => [Span(p, e)] + Scan(n, e, matchAt)
      case None => Scan(n, p + 1, matchAt)
  }

  /** Position `q` lies inside one of the matches `r`. */
  predicate Covered(r: seq<Span>, q: nat) {
    exists k :: 0 <= k < |r| && r[k].start <= q < r[k].end
  }

  /** The scan misses nothing: every position from `p` on at which the
      pattern matches lies inside one of the matches taken.  (A position
      inside a match taken earlier is skipped even if the pattern would match
      there, as the engine does.) */
  lemma {:induction false} NothingSkipped(n: nat, p: nat, matchAt: nat -> Option<nat>, q: nat)
    requires p <= q && p <= n && Advances(n, matchAt)
    requires matchAt(q).Some?
    ensures Covered(Scan(n, p, matchAt), q)
    decreases n - p
  {
    if p == n {
      assert false;
    }
    match matchAt(p)
    case Some(e) =>
      var rest := Scan(n, e, matchAt);
      var r := [Span(p, e)] + rest;
      assert Scan(n, p, matchAt) == r;
      if q < e {
        assert r[0].start <= q < r[0].end;
      } else {
        NothingSkipped(n, e, matchAt, q);
        var k :| 0 <= k < |rest| && rest[k].start <= q < rest[k].end;
        assert r[k + 1] == rest[k];
      }
    case None =>
      NothingSkipped(n, p + 1, matchAt, q);
  }

  /** Between the start `p` (or the end of one match) and the next match,
      the pattern matches nowhere: each match is the leftmost one. */
  lemma {:induction false} MatchesAreLeftmost(n: nat, p: nat, matchAt: nat -> Option<nat>, q: nat)
    requires p <= q && p <= n && Advances(n, matchAt)
    requires var r := Scan(n, p, matchAt); r == [] || q < r[0].start
    ensures matchAt(q).None?
    decreases n - p
  {
    if p < n && matchAt(p).None? && p < q {
      MatchesAreLeftmost(n, p + 1, matchAt, q);
    }
  }

  /** Where the pattern matches, the scan takes that match and resumes at
      its end. */
  lemma ScanTakes(n: nat, p: nat, matchAt: nat -> Option<nat>)
    requires p < n && Advances(n, matchAt) && matchAt(p).Some?
    ensures Scan(n, p, matchAt) == [Span(p, matchAt(p).value)] + Scan(n, matchAt(p).value, matchAt)
  {
  }

  /** Positions where the pattern does not match are passed over. */
  lemma {:induction false} ScanSkips(n: nat, p: nat, q: nat, matchAt: nat -> Option<nat>)
    requires p <= q <= n && Advances(n, matchAt)
    requires forall i :: p <= i < q ==> matchAt(i).None?
    ensures Scan(n, p, matchAt) == Scan(n, q, matchAt)
    decreases q - p
  {
    if p < q {
      assert matchAt(p).None?;
      ScanSkips(n, p + 1, q, matchAt);
    }
  }
}
