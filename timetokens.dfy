/** `re.findall(r"\d+\s*мин", span)` of extract_buses
    (src/map_parser.py:34): every arrival time of an entry, in the order the
    entry's time span lists them. */
module TimeTokens {
  import opened Wrappers
  import opened Lexing
  import opened Scanning

  /** `\d+\s*мин` tried at each position of `s`: the end of its match. */
  function TokenMatch(s: string): (matchAt: nat -> Option<nat>)
    ensures Advances(|s|, matchAt)
  {
    i => if TimeTokenAt(s, i) then Some(TimeTokenEnd(s, i)) else None
  }

  /** The positions of the matches `findall` collects from `s`. */
  function TokenSpans(s: string): seq<Span> {
    Scan(|s|, 0, TokenMatch(s))
  }

  /** `findall` returns whole matches of `\d+\s*мин`, in text order and
      without overlap. */
  lemma TokenSpansAreMatches(s: string)
    ensures var r := TokenSpans(s);
            && (forall k :: 0 <= k < |r| ==> TimeTokenAt(s, r[k].start) && r[k].end == TimeTokenEnd(s, r[k].start))
            && (forall i, j :: 0 <= i < j < |r| ==> r[i].end <= r[j].start)
  {
    var r := TokenSpans(s);
    forall k | 0 <= k < |r|
      ensures TimeTokenAt(s, r[k].start) && r[k].end == TimeTokenEnd(s, r[k].start)
    {
      assert TokenMatch(s)(r[k].start) == Some(r[k].end);
    }
  }

  /** `findall` misses nothing: every position where `\d+\s*мин` matches
      lies inside a collected match. */
  lemma TokenSpansComplete(s: string, q: nat)
    requires TimeTokenAt(s, q)
    ensures Covered(TokenSpans(s), q)
  {
    NothingSkipped(|s|, 0, TokenMatch(s), q);
  }

  /** One whole `\d+\s*мин` match. */
  predicate IsTimeToken(t: string) {
    TimeTokenAt(t, 0) && TimeTokenEnd(t, 0) == |t|
  }

  /** A match cut out of a longer text is a time token on its own. */
  lemma MatchIsTimeToken(s: string, i: nat)
    requires TimeTokenAt(s, i)
    ensures IsTimeToken(s[i..TimeTokenEnd(s, i)])
  {
    var j := TimeTokenEnd(s, i);
    var d := DigitEnd(s, i);
    var w := SpaceEnd(s, d);
    var t := s[i..j];
    assert TimeTokenSplit(s, i, d, w);
    assert t[w - i..w - i + |Minutes|] == s[w..w + |Minutes|];
    assert TimeTokenSplit(t, 0, d - i, w - i);
    TimeTokenMatchesRegex(t, 0);
  }

  /** A time token holds no comma, so `", "` can separate time tokens. */
  lemma TimeTokenHasNoComma(t: string)
    requires IsTimeToken(t)
    ensures ',' !in t
  {
    var d := DigitEnd(t, 0);
    var w := SpaceEnd(t, d);
    forall k | 0 <= k < |t| ensures t[k] != ',' {
      if k < d {
        assert IsDigit(t[k]);
      } else if k < w {
        assert IsSpace(t[k]);
      } else {
        assert t[k] == Minutes[k - w];
      }
    }
  }

  /** The arrival times of one entry: the text of every match, in the order
      of the span (`TokenSpansAreMatches`).  Each of them is a digit run,
      optional whitespace and `мин`. */
  function FindTimes(span: string): (times: seq<string>)
    ensures forall t :: t in times ==> IsTimeToken(t)
    ensures |times| == |TokenSpans(span)|
    ensures forall k :: 0 <= k < |times| ==>
              times[k] == span[TokenSpans(span)[k].start..TokenSpans(span)[k].end]
  {
    var r := TokenSpans(span);
    var times := seq(|r|, k requires 0 <= k < |r| => span[r[k].start..r[k].end]);
    assert forall k :: 0 <= k < |r| ==> IsTimeToken(times[k]) by {
      forall k | 0 <= k < |r| ensures IsTimeToken(times[k]) {
        assert TokenMatch(span)(r[k].start) == Some(r[k].end);
        MatchIsTimeToken(span, r[k].start);
      }
    }
    times
  }
}
