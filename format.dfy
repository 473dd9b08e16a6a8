/** format_buses (src/map_parser.py:39-44): one line per record, the lines
    joined by line feeds, and a fixed sentence when there is nothing to
    show. */
module Format {
  import opened Lexing
  import opened TimeTokens
  import opened Extract

  /** What format_buses returns for an empty list. */
  const Placeholder: string := "Информация по остановке " + "временно недоступна."

  /** `sep.join(parts)`.  `Split` takes it apart again (`SplitJoin`). */
  function Join(parts: seq<string>, sep: string): (r: string)
    ensures |parts| == 0 ==> r == ""
    ensures |parts| == 1 ==> r == parts[0]
    ensures |parts| > 1 ==> |r| >= |parts[0]| + |sep| && r[..|parts[0]| + |sep|] == parts[0] + sep
    decreases |parts|
  {
    if |parts| == 0 then ""
    else if |parts| == 1 then parts[0]
    else
      var r := parts[0] + sep + Join(parts[1..], sep);
      assert r[..|parts[0]| + |sep|] == parts[0] + sep;
      r
  }

  /** `s.split(sep)`: the pieces between the occurrences of `sep`, found
      from left to right without overlap; a text without `sep` is a single
      piece. */
  function Split(s: string, sep: string): (parts: seq<string>)
    requires |sep| > 0
    ensures |parts| > 0
    decreases |s|
  {
    if |s| == 0 then [""]
    else if At(s, 0, sep) then [""] + Split(s[|sep|..], sep)
    else
      var rest := Split(s[1..], sep);
      [[s[0]] + rest[0]] + rest[1..]
  }

  /** One line of the output (src/map_parser.py:42-43):
      `"<bus_number> – <route_name>: <t1>, <t2>, …"`. */
  function Line(b: Bus): (line: string)
    ensures |line| >= |b.busNumber| + 3 && line[..|b.busNumber| + 3] == b.busNumber + " – "
    ensures |line| >= |b.busNumber| + 3 + |b.routeName| && line[..|b.busNumber| + 3 + |b.routeName|] == b.busNumber + " – " + b.routeName
    ensures line[|b.busNumber| + 3 + |b.routeName|..] == ": " + Join(b.arrivalTimes, ", ")
  {
    var head := b.busNumber + " – " + b.routeName;
    var line := head + ": " + Join(b.arrivalTimes, ", ");
    assert line[..|head|] == head;
    assert line[|head|..] == ": " + Join(b.arrivalTimes, ", ");
    assert line[..|b.busNumber| + 3] == head[..|b.busNumber| + 3];
    line
  }

  /** The times can be read back out of a line: what follows the name and
      `": "`, split at `", "`, is the list of times, since no time token holds
      a comma. */
  lemma LineTimes(b: Bus)
    requires |b.arrivalTimes| > 0
    requires forall t :: t in b.arrivalTimes ==> IsTimeToken(t)
    ensures var k := |b.busNumber| + 3 + |b.routeName| + 2;
            |Line(b)| >= k && Split(Line(b)[k..], ", ") == b.arrivalTimes
  {
    var k := |b.busNumber| + 3 + |b.routeName|;
    var tail := Line(b)[k..];
    assert tail[2..] == Join(b.arrivalTimes, ", ");
    assert Line(b)[k + 2..] == tail[2..];
    forall t | t in b.arrivalTimes ensures ", "[0] !in t {
      TimeTokenHasNoComma(t);
    }
    SplitJoin(b.arrivalTimes, ", ");
  }

  /** The line of every record, in order. */
  function Lines(buses: seq<Bus>): (lines: seq<string>)
    ensures |lines| == |buses|
    ensures forall k :: 0 <= k < |buses| ==> lines[k] == Line(buses[k])
  {
    seq(|buses|, k requires 0 <= k < |buses| => Line(buses[k]))
  }

  /** format_buses: `"\n".join(lines) or Placeholder`.  The placeholder
      comes back exactly when there are no records. */
  function FormatBuses(buses: seq<Bus>): (r: string)
    ensures r == Placeholder <==> |buses| == 0
  {
    var joined := Join(Lines(buses), "\n");
    JoinedLinesNotPlaceholder(buses);
    if joined == "" then Placeholder else joined
  }

  /** Joining at least one line gives neither the empty text nor the
      placeholder. */
  lemma JoinedLinesNotPlaceholder(buses: seq<Bus>)
    ensures |buses| > 0 ==> Join(Lines(buses), "\n") != "" && Join(Lines(buses), "\n") != Placeholder
  {
    if |buses| > 0 {
      var joined := Join(Lines(buses), "\n");
      var first := Line(buses[0]);
      LineIsNotPlaceholder(buses[0]);
      assert joined[..|first|] == first;
      assert joined[|buses[0].busNumber| + 1] == '–';
    }
  }

  /** Every line holds an en dash; the placeholder holds none. */
  lemma LineIsNotPlaceholder(b: Bus)
    ensures |Line(b)| > |b.busNumber| + 1 && Line(b)[|b.busNumber| + 1] == '–'
    ensures !(|Placeholder| > |b.busNumber| + 1 && Placeholder[|b.busNumber| + 1] == '–')
  {
    assert Line(b)[..|b.busNumber| + 3][|b.busNumber| + 1] == '–';
    assert '–' !in Placeholder;
  }

  // ---------------------------------------------------------------------
  // Splitting the output back into lines
  // ---------------------------------------------------------------------

  /** Splitting a piece that does not hold the separator's first
      character, followed by the separator and more text, gives the piece and
      then the split of the rest. */
  lemma {:induction false} SplitAfterPiece(p: string, sep: string, t: string)
    requires |sep| > 0 && sep[0] !in p
    ensures Split(p + sep + t, sep) == [p] + Split(t, sep)
    decreases |p|
  {
    var s := p + sep + t;
    if |p| == 0 {
      assert s == sep + t;
      assert At(s, 0, sep);
      assert s[|sep|..] == t;
    } else {
      assert s[0] == p[0];
      assert !At(s, 0, sep);
      assert s[1..] == p[1..] + sep + t;
      SplitAfterPiece(p[1..], sep, t);
      assert [p[0]] + p[1..] == p;
    }
  }

  /** Splitting a piece that does not hold the separator's first character
      gives the piece itself. */
  lemma {:induction false} SplitSingle(p: string, sep: string)
    requires |sep| > 0 && sep[0] !in p
    ensures Split(p, sep) == [p]
    decreases |p|
  {
    if |p| > 0 {
      assert !At(p, 0, sep) by {
        assert p[0] != sep[0];
      }
      SplitSingle(p[1..], sep);
      assert [p[0]] + p[1..] == p;
    }
  }

  /** Joining non-empty many pieces none of which holds the separator's
      first character, and splitting the result again, gives the pieces
      back. */
  lemma {:induction false} SplitJoin(parts: seq<string>, sep: string)
    requires |parts| > 0 && |sep| > 0
    requires forall p :: p in parts ==> sep[0] !in p
    ensures Split(Join(parts, sep), sep) == parts
    decreases |parts|
  {
    if |parts| == 1 {
      SplitSingle(parts[0], sep);
    } else {
      assert parts[0] in parts;
      assert forall p :: p in parts[1..] ==> p in parts;
      SplitJoin(parts[1..], sep);
      SplitAfterPiece(parts[0], sep, Join(parts[1..], sep));
      assert [parts[0]] + parts[1..] == parts;
    }
  }

  /** For a non-empty list whose lines hold no line feed, splitting the
      output at line feeds gives exactly one line per record, in order. */
  lemma FormatBusesLines(buses: seq<Bus>)
    requires |buses| > 0
    requires forall b :: b in buses ==> '\n' !in Line(b)
    ensures Split(FormatBuses(buses), "\n") == Lines(buses)
  {
    var lines := Lines(buses);
    assert forall p :: p in lines ==> '\n' !in p by {
      forall p | p in lines ensures '\n' !in p {
        var k :| 0 <= k < |lines| && lines[k] == p;
        assert buses[k] in buses;
      }
    }
    SplitJoin(lines, "\n");
    JoinedLinesNotPlaceholder(buses);
  }
}
