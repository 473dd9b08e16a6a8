/** extract_buses (src/map_parser.py:19-36): one record per match of the
    entry pattern, with the bus number, the cleaned route name and the
    arrival times. */
module Extract {
  import opened Lexing
  import opened TimeTokens
  import opened EntryPattern

  /** One record of the result: the dictionary with the keys `bus_number`,
      `route_name` and `arrival_times`. */
  datatype Bus = Bus(busNumber: string, routeName: string, arrivalTimes: seq<string>)

  // ---------------------------------------------------------------------
  // `str.replace(w, "")`
  // ---------------------------------------------------------------------

  /** `s.replace(w, "")`: one pass from left to right that drops every
      occurrence of `w` it meets and resumes after it. */
  function RemoveAll(s: string, w: string): (r: string)
    requires |w| > 0
    ensures |r| <= |s|
    ensures forall c :: c in r ==> c in s
    decreases |s|
  {
    if |s| < |w| then s
    else if At(s, 0, w) then RemoveAll(s[|w|..], w)
    else [s[0]] + RemoveAll(s[1..], w)
  }

  /** `w` occurs nowhere in `s`. */
  ghost predicate Absent(s: string, w: string) {
    forall i: nat :: !At(s, i, w)
  }

  /** A text without `w` is left as it is. */
  lemma {:induction false} RemoveAllAbsent(s: string, w: string)
    requires |w| > 0 && Absent(s, w)
    ensures RemoveAll(s, w) == s
    decreases |s|
  {
    if |s| > 0 {
      assert !At(s, 0, w);
      RemoveAllStep(s, w);
      forall i: nat ensures !At(s[1..], i, w) {
        AtInDrop(s, 1, i, w);
      }
      RemoveAllAbsent(s[1..], w);
      assert s == [s[0]] + s[1..];
    }
  }

  /** Where `w` does not start the text, its first character is kept. */
  lemma RemoveAllStep(s: string, w: string)
    requires |w| > 0 && |s| > 0 && !At(s, 0, w)
    ensures RemoveAll(s, w) == [s[0]] + RemoveAll(s[1..], w)
  {
    if |s| < |w| {
      assert s == [s[0]] + s[1..];
    }
  }

  /** An occurrence in `s[i..]` is one in `s`, shifted by `i`. */
  lemma AtInDrop(s: string, i: nat, p: nat, w: string)
    requires i <= |s|
    ensures At(s[i..], p, w) ==> At(s, i + p, w)
  {
    assert forall k :: 0 <= k < |s| - i ==> s[i..][k] == s[i + k];
  }

  /** An occurrence in `s[i..j]` is one in `s`, shifted by `i`. */
  lemma AtInSlice(s: string, i: nat, j: nat, p: nat, w: string)
    requires i <= j <= |s|
    ensures At(s[i..j], p, w) ==> At(s, i + p, w)
  {
    assert forall k :: 0 <= k < j - i ==> s[i..j][k] == s[i + k];
  }

  /** The reference reading of `replace`: find the leftmost occurrence, keep
      what lies before it, drop it, and go on with what follows. */
  lemma RemoveAllLeftmost(s: string, w: string, i: nat)
    requires |w| > 0 && At(s, i, w)
    requires forall j: nat :: j < i ==> !At(s, j, w)
    ensures RemoveAll(s, w) == s[..i] + RemoveAll(s[i + |w|..], w)
  {
    RemoveAllLeftmostFrom(s, w, 0, i);
    assert s[0..] == s;
  }

  /** The same, for the text from position `p` on. */
  lemma {:induction false} RemoveAllLeftmostFrom(s: string, w: string, p: nat, i: nat)
    requires p <= i && |w| > 0 && At(s, i, w)
    requires forall j: nat :: p <= j < i ==> !At(s, j, w)
    ensures RemoveAll(s[p..], w) == s[p..i] + RemoveAll(s[i + |w|..], w)
    decreases i - p
  {
    var t := s[p..];
    AtSuffix(s, p, w);
    if p == i {
      assert t[|w|..] == s[i + |w|..];
      assert s[p..i] == [];
    } else {
      RemoveAllStep(t, w);
      assert t[0] == s[p] && t[1..] == s[p + 1..];
      RemoveAllLeftmostFrom(s, w, p + 1, i);
      PrependSlice(s, p, i, RemoveAll(s[p + 1..], w), RemoveAll(s[i + |w|..], w));
    }
  }

  /** Putting `s[p]` back in front of `s[p + 1..i] + y`. */
  lemma PrependSlice(s: string, p: nat, i: nat, x: string, y: string)
    requires p < i <= |s| && x == s[p + 1..i] + y
    ensures [s[p]] + x == s[p..i] + y
  {
    assert s[p..i] == [s[p]] + s[p + 1..i];
  }

  /** `w` starts the text from `p` on exactly when it occurs at `p`. */
  lemma AtSuffix(s: string, p: nat, w: string)
    requires p <= |s|
    ensures At(s[p..], 0, w) <==> At(s, p, w)
  {
    assert forall k :: 0 <= k < |s| - p ==> s[p..][k] == s[p + k];
  }

  /** Removing the pieces can bring a new occurrence together: after
      `replace` the name may still hold the word. */
  lemma RemoveAllCanRejoin()
    ensures RemoveAll("каж" + Every + "дые", Every) == Every
  {
    var s := "каж" + Every + "дые";
    assert s[3] == 'к' && s[4] == 'а' && s[5] == 'ж' && s[6] == 'д';
    assert !At(s, 0, Every);
    assert !At(s, 1, Every);
    assert !At(s, 2, Every);
    assert At(s, 3, Every);
    RemoveAllLeftmost(s, Every, 3);
    assert s[..3] == "каж" && s[9..] == "дые";
  }

  // ---------------------------------------------------------------------
  // `str.strip("–: ")`
  // ---------------------------------------------------------------------

  /** The characters `strip("–: ")` removes. */
  predicate IsStripChar(c: char) {
    c == '–' || c == ':' || c == ' '
  }

  /** First position from `i` on that holds no strip character. */
  function TrimStart(s: string, i: nat): (j: nat)
    requires i <= |s|
    ensures i <= j <= |s|
    ensures forall k :: i <= k < j ==> IsStripChar(s[k])
    ensures j < |s| ==> !IsStripChar(s[j])
    decreases |s| - i
  {
    if i < |s| && IsStripChar(s[i]) then TrimStart(s, i + 1) else i
  }

  /** Going back from `j`, but not past `i`: the end of the last character
      that is not a strip character. */
  function TrimEnd(s: string, i: nat, j: nat): (e: nat)
    requires i <= j <= |s|
    ensures i <= e <= j
    ensures forall k :: e <= k < j ==> IsStripChar(s[k])
    ensures e > i ==> !IsStripChar(s[e - 1])
    decreases j - i
  {
    if i < j && IsStripChar(s[j - 1]) then TrimEnd(s, i, j - 1) else j
  }

  /** `s.strip("–: ")`. */
  function Strip(s: string): (r: string)
    ensures |r| > 0 ==> !IsStripChar(r[0]) && !IsStripChar(r[|r| - 1])
    ensures forall c :: c in r ==> c in s
  {
    var i := TrimStart(s, 0);
    s[i..TrimEnd(s, i, |s|)]
  }

  /** `strip` removes exactly the strip characters around the text: for any
      text `m` that neither starts nor ends with one, framed by strip
      characters on both sides, it returns `m`. */
  lemma StripIsTrim(a: string, m: string, b: string)
    requires forall k :: 0 <= k < |a| ==> IsStripChar(a[k])
    requires forall k :: 0 <= k < |b| ==> IsStripChar(b[k])
    requires |m| > 0 ==> !IsStripChar(m[0]) && !IsStripChar(m[|m| - 1])
    ensures Strip(a + m + b) == m
  {
    var s := a + m + b;
    var i := TrimStart(s, 0);
    if |m| > 0 {
      assert s[|a|] == m[0];
      assert i == |a|;
      assert s[|a| + |m| - 1] == m[|m| - 1];
      var e := TrimEnd(s, i, |s|);
      assert e == |a| + |m|;
      assert s[i..e] == m;
    } else {
      assert forall k :: 0 <= k < |s| ==> IsStripChar(s[k]) by {
        forall k | 0 <= k < |s| ensures IsStripChar(s[k]) {
          if k < |a| { assert s[k] == a[k]; } else { assert s[k] == b[k - |a|]; }
        }
      }
      assert i == |s|;
    }
  }

  // ---------------------------------------------------------------------
  // The word `каждые` in route names
  // ---------------------------------------------------------------------

  /** A piece of a text without `w` has no `w` either. */
  lemma AbsentSlice(x: string, i: nat, j: nat, w: string)
    requires i <= j <= |x| && Absent(x, w)
    ensures Absent(x[i..j], w)
  {
    forall p: nat ensures !At(x[i..j], p, w) {
      AtInSlice(x, i, j, p, w);
    }
  }

  /** When `w` can occur in `t` only at its very start, `replace` leaves no
      `w` behind. */
  lemma RemoveAllHeadOnly(t: string, w: string)
    requires |w| > 0
    requires forall j: nat :: 0 < j ==> !At(t, j, w)
    ensures Absent(RemoveAll(t, w), w)
  {
    if |t| < |w| {
      assert !At(t, 0, w);
    } else if At(t, 0, w) {
      AbsentPastHead(t, w, |w|);
      RemoveAllAbsent(t[|w|..], w);
    } else {
      AbsentPastHead(t, w, 1);
      RemoveAllAbsent(t[1..], w);
      assert RemoveAll(t, w) == t;
    }
  }

  /** What follows the first character of such a `t` has no `w`. */
  lemma AbsentPastHead(t: string, w: string, i: nat)
    requires 0 < i <= |t|
    requires forall j: nat :: 0 < j ==> !At(t, j, w)
    ensures Absent(t[i..], w)
  {
    forall p: nat ensures !At(t[i..], p, w) {
      AtInDrop(t, i, p, w);
    }
  }

  /** When `каждые` can occur in a raw name only at its start, the cleaned
      name holds none. */
  lemma CleanNameHeadOnly(t: string)
    requires forall j: nat :: 0 < j ==> !At(t, j, Every)
    ensures Absent(CleanName(t), Every)
  {
    RemoveAllHeadOnly(t, Every);
    var x := RemoveAll(t, Every);
    var i := TrimStart(x, 0);
    AbsentSlice(x, i, TrimEnd(x, i, |x|), Every);
  }

  /** Inside a match, `каждые` cannot begin after the first character of
      group 2 unless a line feed lies before it: the lazy name would have
      stopped there, since the lookahead after the name holds at the word
      and group 3 can run on from there to the end of the match. */
  lemma EveryEndsName(s: string, m: Entry, e: nat)
    requires IsEntry(s, m)
    requires NoNewline(s, m.nameStart, m.nameEnd)
    requires m.nameStart < e < m.nameEnd
    ensures !At(s, e, Every)
  {
    EntryShape(s, m);
    assert NoNewline(s, e, m.spanEnd);
    assert !NameFits(s, m.nameStart, e, AfterName(s));
    assert LazySpanEnd(s, e).Some?;
  }

  /** The piece `s[i..j]` can hold `w` only at its start when `s` holds no
      `w` strictly inside it. */
  lemma HeadOnlyInSlice(s: string, i: nat, j: nat, w: string)
    requires i <= j <= |s| && |w| > 0
    requires forall e :: i < e < j ==> !At(s, e, w)
    ensures forall p: nat :: 0 < p ==> !At(s[i..j], p, w)
  {
    forall p: nat | 0 < p ensures !At(s[i..j], p, w) {
      AtInSlice(s, i, j, p, w);
    }
  }

  /** When group 2 holds no line feed, the route name holds no `каждые`:
      `replace` then removes every occurrence there is. */
  lemma CleanNameHasNoEvery(s: string, m: Entry)
    requires IsEntry(s, m)
    requires NoNewline(s, m.nameStart, m.nameEnd)
    ensures Absent(CleanName(s[m.nameStart..m.nameEnd]), Every)
  {
    EntryShape(s, m);
    forall e | m.nameStart < e < m.nameEnd ensures !At(s, e, Every) {
      EveryEndsName(s, m, e);
    }
    HeadOnlyInSlice(s, m.nameStart, m.nameEnd, Every);
    CleanNameHeadOnly(s[m.nameStart..m.nameEnd]);
  }

  // ---------------------------------------------------------------------
  // Records
  // ---------------------------------------------------------------------

  /** The route name as the source cleans group 2 (src/map_parser.py:33). */
  function CleanName(raw: string): (name: string)
    ensures forall c :: c in name ==> c in raw
    ensures |name| > 0 ==> !IsStripChar(name[0]) && !IsStripChar(name[|name| - 1])
  {
    Strip(RemoveAll(raw, Every))
  }

  /** Everything the result promises of one record: a non-empty digit run as
      the bus number, a route name without digits, colons or surrounding
      strip characters, and arrival times that are whole `\d+\s*мин`
      tokens. */
  predicate WellFormed(b: Bus) {
    && |b.busNumber| > 0
    && (forall i :: 0 <= i < |b.busNumber| ==> IsDigit(b.busNumber[i]))
    && (forall c :: c in b.routeName ==> IsNameChar(c))
    && (|b.routeName| > 0 ==> !IsStripChar(b.routeName[0]) && !IsStripChar(b.routeName[|b.routeName| - 1]))
    && (forall t :: t in b.arrivalTimes ==> IsTimeToken(t))
  }

  /** The characters of a run of name characters are name characters. */
  lemma NameCharsOfSlice(s: string, i: nat, j: nat)
    requires i <= j <= |s| && NameChars(s, i, j)
    ensures forall c :: c in s[i..j] ==> IsNameChar(c)
  {
    forall c | c in s[i..j] ensures IsNameChar(c) {
      var x :| 0 <= x < j - i && s[i..j][x] == c;
      assert s[i + x] == c;
    }
  }

  /** The record built from the match `m` (src/map_parser.py:32-35). */
  function ToBus(s: string, m: Entry): (b: Bus)
    requires Placed(s, m)
    ensures WellFormed(b)
  {
    NameCharsOfSlice(s, m.nameStart, m.nameEnd);
    Bus(s[m.start..m.numEnd], CleanName(s[m.nameStart..m.nameEnd]), FindTimes(s[m.nameEnd..m.spanEnd]))
  }

  /** extract_buses: one record per match, in the order `finditer` yields
      them. */
  function ExtractBuses(text: string): (buses: seq<Bus>)
    ensures |buses| == |Entries(text)|
    ensures forall k :: 0 <= k < |buses| ==> WellFormed(buses[k])
  {
    var r := Entries(text);
    EntriesPlaced(text);
    seq(|r|, k requires 0 <= k < |r| => ToBus(text, r[k]))
  }

  /** Record `k` comes from the `k`-th match: group 1 as it is, group 2
      cleaned, and the times found in group 3. */
  lemma ExtractBusesFields(text: string, k: nat)
    requires k < |Entries(text)|
    ensures var m := Entries(text)[k];
            && ExtractBuses(text)[k].busNumber == text[m.start..m.numEnd]
            && ExtractBuses(text)[k].routeName == CleanName(text[m.nameStart..m.nameEnd])
            && ExtractBuses(text)[k].arrivalTimes == FindTimes(text[m.nameEnd..m.spanEnd])
  {
  }
}
