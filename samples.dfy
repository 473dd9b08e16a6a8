/** The examples of the repository's tests (tests/map_parser_test.py),
    proved of the model.  The widget text of the extract_buses test is kept
    as its four pieces: the head and the time span of route 107, then those
    of route 220, run together as `parse_arrival_block` returns them. */
module Samples {
  import opened Wrappers
  import opened Lexing
  import opened Scanning
  import opened TimeTokens
  import opened EntryPattern
  import opened Extract
  import opened Format
  import opened Retrieve

  /** Route 107: number, separator and name, then its time span. */
  const Head107: string := "107 – ТК Центральный"
  const Tail107: string := ": 3 мин, 11 мин"
  /** Route 220: number, separator and name, then its time span, which
      begins with the word the name stops at. */
  const Head220: string := "220 – Профилакторий Радуга"
  const Tail220: string := "каждые: 8мин"
  /** The whole widget text. */
  const Widget: string := Head107 + Tail107 + Head220 + Tail220

  /** Where the pieces lie in the widget text. */
  lemma Chars()
    ensures |Widget| == 73
    ensures Widget[..20] == Head107 && Widget[20..35] == Tail107 && Widget[35..61] == Head220 && Widget[61..] == Tail220
  {
    assert |Head107| == 20 && |Tail107| == 15 && |Head220| == 26 && |Tail220| == 12;
    assert Widget[..20] == Head107;
    assert Widget[20..35] == Tail107;
    assert Widget[35..61] == Head220;
    assert Widget[61..] == Tail220;
  }

  /** A letter that can begin none of the name's stop words. */
  lemma NotNameStop(s: string, e: nat)
    requires e < |s| && !IsDigit(s[e]) && s[e] != ':' && s[e] != Every[0] && s[e] != Tomorrow[0]
    ensures !NameStopAt(s, e)
  {
  }

  /** A character that is neither a digit nor a line feed cannot end a
      time span. */
  lemma NotSpanStop(s: string, f: nat)
    requires f < |s| && !IsDigit(s[f]) && s[f] != '\n'
    ensures !SpanStopAt(s, f)
  {
  }

  lemma FirstHead()
    ensures DigitEnd(Widget, 0) == 3 && SpaceEnd(Widget, 3) == 4 && SeparatorLen(Widget, 4) == 1 && SpaceEnd(Widget, 5) == 6
  {
    Chars();
    assert Widget[0] == Head107[0] && Widget[1] == Head107[1] && Widget[2] == Head107[2] && Widget[3] == Head107[3] && Widget[4] == Head107[4] && Widget[5] == Head107[5] && Widget[6] == Head107[6];
    DigitEndOfRun(Widget, 0, 3);
    SpaceEndOfRun(Widget, 3, 4);
    assert At(Widget, 4, EnDash);
    SpaceEndOfRun(Widget, 5, 6);
  }

  lemma FirstName()
    ensures NameChars(Widget, 6, 20)
    ensures forall e :: 7 <= e < 20 ==> !NameStopAt(Widget, e)
    ensures Widget[20] == ':'
  {
    Chars();
    forall e | 6 <= e < 20 ensures Widget[e] == Head107[e] { }
    assert forall j :: 6 <= j < 20 ==> Plain(Head107[j]);
    assert Every[0] == 'к' && Tomorrow[0] == 'з';
    forall e | 7 <= e < 20 ensures !NameStopAt(Widget, e) {
      NotNameStop(Widget, e);
    }
  }

  /** A digit run ended by a letter that starts no separator does not end a
      time span. */
  lemma NotEntryStart(s: string, f: nat, d: nat, w: nat)
    requires f < d <= w < |s| && Digits(s, f, d) && !IsDigit(s[d])
    requires Spaces(s, d, w) && !IsSpace(s[w])
    requires s[w] != EnDash[0] && s[w] != To[0] && s[w] != Do[0]
    ensures !EntryStartAt(s, f)
  {
    DigitEndOfRun(s, f, d);
    SpaceEndOfRun(s, d, w);
  }

  lemma SpanEndsAt(s: string, f: nat, g: nat)
    requires f <= g <= |s| && NoNewline(s, f, g)
    requires forall h :: f <= h < g ==> !SpanStopAt(s, h)
    requires SpanStopAt(s, g)
    ensures LazySpanEnd(s, f) == Some(g)
  {
  }

  lemma FirstSpanChars()
    ensures |Widget| == 73
    ensures forall f :: 20 <= f < 35 ==> Widget[f] != '\n'
    ensures forall f :: 20 <= f < 35 && f != 22 && f != 29 && f != 30 ==> !IsDigit(Widget[f])
    ensures IsDigit(Widget[22]) && Widget[23] == ' ' && Widget[24] == 'м'
    ensures IsDigit(Widget[29]) && IsDigit(Widget[30]) && Widget[31] == ' ' && Widget[32] == 'м'
  {
    Chars();
    forall f | 20 <= f < 35 ensures Widget[f] == Tail107[f - 20] { }
    assert forall j :: 0 <= j < 15 ==> Tail107[j] != '\n';
    assert forall j :: 0 <= j < 15 && j != 2 && j != 9 && j != 10 ==> !IsDigit(Tail107[j]);
  }

  lemma FirstSpanNoStop()
    ensures forall f :: 20 <= f < 35 ==> !SpanStopAt(Widget, f)
  {
    FirstSpanChars();
    assert EnDash[0] == '–' && To[0] == 't' && Do[0] == 'д';
    forall f | 20 <= f < 35 ensures !SpanStopAt(Widget, f) {
      if f == 22 {
        NotEntryStart(Widget, 22, 23, 24);
      } else if f == 29 || f == 30 {
        NotEntryStart(Widget, f, 31, 32);
      } else {
        NotSpanStop(Widget, f);
      }
    }
  }

  lemma SecondHead()
    ensures DigitEnd(Widget, 35) == 38 && SpaceEnd(Widget, 38) == 39 && SeparatorLen(Widget, 39) == 1 && SpaceEnd(Widget, 40) == 41
    ensures EntryStartAt(Widget, 35)
  {
    Chars();
    assert Widget[35] == Head220[0] && Widget[36] == Head220[1] && Widget[37] == Head220[2] && Widget[38] == Head220[3] && Widget[39] == Head220[4] && Widget[40] == Head220[5] && Widget[41] == Head220[6];
    DigitEndOfRun(Widget, 35, 38);
    SpaceEndOfRun(Widget, 38, 39);
    assert At(Widget, 39, EnDash);
    SpaceEndOfRun(Widget, 40, 41);
  }

  lemma FirstSpan()
    ensures LazySpanEnd(Widget, 20) == Some(35)
  {
    FirstSpanChars();
    FirstSpanNoStop();
    SecondHead();
    SpanEndsAt(Widget, 20, 35);
  }

  lemma FirstEntry()
    ensures EntryAt(Widget, 0) == Some(Entry(0, 3, 4, 5, 6, 20, 35))
  {
    Chars();
    FirstHead();
    FirstName();
    FirstSpan();
    var rest := AfterName(Widget);
    assert rest(20);
    assert NameFits(Widget, 6, 20, rest);
    forall e | 7 <= e < 20 ensures !NameFits(Widget, 6, e, rest) {
      assert !NameStopAt(Widget, e);
    }
    assert LazyName(Widget, 6, 7, rest) == Some(20);
    assert NameAfter(Widget, 5, 6, rest) == Some((6, 20));
  }

  /** Neither a digit nor a colon, and no stop word starts with it. */
  predicate Plain(c: char) {
    !IsDigit(c) && c != ':' && c != 'к' && c != 'з'
  }

  lemma SecondNameChars()
    ensures |Widget| == 73
    ensures forall e :: 41 <= e < 61 && e != 48 ==> Plain(Widget[e])
    ensures Widget[48] == 'к' && Widget[49] == 'т'
  {
    Chars();
    forall e | 41 <= e < 61 ensures Widget[e] == Head220[e - 35] { }
    assert forall j :: 6 <= j < 26 && j != 13 ==> Plain(Head220[j]);
    assert Head220[13] == 'к' && Head220[14] == 'т';
  }

  lemma SecondName()
    ensures NameChars(Widget, 41, 61)
    ensures forall e :: 42 <= e < 61 ==> !NameStopAt(Widget, e)
  {
    SecondNameChars();
    assert Every[0] == 'к' && Every[1] == 'а' && Tomorrow[0] == 'з';
    forall e | 42 <= e < 61 ensures !NameStopAt(Widget, e) {
      if e == 48 {
        assert !At(Widget, 48, Every) by { assert Widget[49] != Every[1]; }
      } else {
        NotNameStop(Widget, e);
      }
    }
  }

  lemma EveryAfterSecondName()
    ensures At(Widget, 61, Every)
  {
    Chars();
    forall j | 0 <= j < 6 ensures Widget[61 + j] == Every[j] {
      assert Widget[61 + j] == Tail220[j];
    }
  }

  lemma SecondSpanChars()
    ensures |Widget| == 73
    ensures forall f :: 61 <= f < 73 ==> Widget[f] != '\n'
    ensures forall f :: 61 <= f < 73 && f != 69 ==> !IsDigit(Widget[f])
    ensures IsDigit(Widget[69]) && Widget[70] == 'м'
  {
    Chars();
    forall f | 61 <= f < 73 ensures Widget[f] == Tail220[f - 61] { }
    assert forall j :: 0 <= j < 12 ==> Tail220[j] != '\n';
    assert forall j :: 0 <= j < 12 && j != 8 ==> !IsDigit(Tail220[j]);
  }

  lemma SecondSpan()
    ensures LazySpanEnd(Widget, 61) == Some(73)
  {
    SecondSpanChars();
    assert EnDash[0] == '–' && To[0] == 't' && Do[0] == 'д';
    forall f | 61 <= f < 73 ensures !SpanStopAt(Widget, f) {
      if f == 69 {
        NotEntryStart(Widget, 69, 70, 70);
      } else {
        NotSpanStop(Widget, f);
      }
    }
    assert EndAnchorAt(Widget, 73);
    SpanEndsAt(Widget, 61, 73);
  }

  lemma SecondEntry()
    ensures EntryAt(Widget, 35) == Some(Entry(35, 38, 39, 40, 41, 61, 73))
  {
    Chars();
    SecondHead();
    SecondName();
    EveryAfterSecondName();
    SecondSpan();
    var rest := AfterName(Widget);
    assert rest(61);
    assert NameFits(Widget, 41, 61, rest);
    forall e | 42 <= e < 61 ensures !NameFits(Widget, 41, e, rest) {
      assert !NameStopAt(Widget, e);
    }
    assert LazyName(Widget, 41, 42, rest) == Some(61);
    assert NameAfter(Widget, 40, 41, rest) == Some((41, 61));
  }

  lemma SampleSpans()
    ensures Scan(|Widget|, 0, EntryMatch(Widget)) == [Span(0, 35), Span(35, 73)]
  {
    FirstEntry();
    SecondEntry();
    Chars();
    var matchAt := EntryMatch(Widget);
    assert matchAt(0) == Some(35);
    assert matchAt(35) == Some(73);
    ScanTakes(73, 0, matchAt);
    ScanTakes(73, 35, matchAt);
  }

  lemma SampleEntries()
    ensures Entries(Widget) == [Entry(0, 3, 4, 5, 6, 20, 35), Entry(35, 38, 39, 40, 41, 61, 73)]
  {
    SampleSpans();
    FirstEntry();
    SecondEntry();
    var r := Entries(Widget);
    assert |r| == 2;
    assert r[0] == EntryAt(Widget, 0).value;
    assert r[1] == EntryAt(Widget, 35).value;
  }

  lemma FirstTimeText()
    ensures Tail107[2..7] == "3 мин" && Tail107[9..15] == "11 мин"
  {
  }

  lemma FirstTokenChars()
    ensures |Tail107| == 15
    ensures !IsDigit(Tail107[0]) && !IsDigit(Tail107[1])
    ensures TimeTokenAt(Tail107, 2) && TimeTokenEnd(Tail107, 2) == 7
  {
    assert Tail107[2] == '3' && Tail107[3] == ' ' && Tail107[4] == 'м' && Tail107[5] == 'и' && Tail107[6] == 'н';
    DigitEndOfRun(Tail107, 2, 3);
    SpaceEndOfRun(Tail107, 3, 4);
    assert At(Tail107, 4, Minutes);
  }

  lemma SecondTokenChars()
    ensures |Tail107| == 15
    ensures !IsDigit(Tail107[7]) && !IsDigit(Tail107[8])
    ensures TimeTokenAt(Tail107, 9) && TimeTokenEnd(Tail107, 9) == 15
  {
    assert Tail107[9] == '1' && Tail107[10] == '1' && Tail107[11] == ' ' && Tail107[12] == 'м' && Tail107[13] == 'и' && Tail107[14] == 'н';
    DigitEndOfRun(Tail107, 9, 11);
    SpaceEndOfRun(Tail107, 11, 12);
    assert At(Tail107, 12, Minutes);
  }

  lemma FirstTokenSpans()
    ensures TokenSpans(Tail107) == [Span(2, 7), Span(9, 15)]
  {
    FirstTokenChars();
    SecondTokenChars();
    var matchAt := TokenMatch(Tail107);
    assert matchAt(0) == None && matchAt(1) == None && matchAt(7) == None && matchAt(8) == None;
    assert matchAt(2) == Some(7) && matchAt(9) == Some(15);
    ScanSkips(15, 0, 2, matchAt);
    ScanTakes(15, 2, matchAt);
    ScanSkips(15, 7, 9, matchAt);
    ScanTakes(15, 9, matchAt);
  }

  lemma FirstTimes()
    ensures FindTimes(Tail107) == ["3 мин", "11 мин"]
  {
    FirstTokenSpans();
    FirstTimeText();
    var times := FindTimes(Tail107);
    assert |times| == 2;
    assert times[0] == Tail107[2..7];
    assert times[1] == Tail107[9..15];
  }

  lemma SecondTimeChars()
    ensures |Tail220| == 12
    ensures forall j :: 0 <= j < 8 ==> !IsDigit(Tail220[j])
    ensures TimeTokenAt(Tail220, 8) && TimeTokenEnd(Tail220, 8) == 12
    ensures Tail220[8..12] == "8мин"
  {
    assert forall j :: 0 <= j < 8 ==> !IsDigit(Tail220[j]);
    assert Tail220[8] == '8' && Tail220[9] == 'м' && Tail220[10] == 'и' && Tail220[11] == 'н';
    DigitEndOfRun(Tail220, 8, 9);
    SpaceEndOfRun(Tail220, 9, 9);
    assert At(Tail220, 9, Minutes);
  }

  lemma SecondTimes()
    ensures FindTimes(Tail220) == ["8мин"]
  {
    SecondTimeChars();
    var matchAt := TokenMatch(Tail220);
    assert matchAt(8) == Some(12);
    ScanSkips(12, 0, 8, matchAt);
    ScanTakes(12, 8, matchAt);
    assert TokenSpans(Tail220) == [Span(8, 12)];
  }

  /** A text in which the first letter of the word never occurs, or occurs
      only where the second letter does not follow, holds no occurrence. */
  lemma NameKeepsAsIs(t: string)
    requires |t| > 0 && !IsStripChar(t[0]) && !IsStripChar(t[|t| - 1])
    requires forall i :: 0 <= i < |t| && t[i] == Every[0] ==> i + 1 < |t| && t[i + 1] != Every[1]
    ensures CleanName(t) == t
  {
    forall i: nat ensures !At(t, i, Every) {
    }
    RemoveAllAbsent(t, Every);
    StripIsTrim("", t, "");
    assert "" + t + "" == t;
  }

  lemma FirstNameClean()
    ensures CleanName("ТК Центральный") == "ТК Центральный"
  {
    var t := "ТК Центральный";
    assert forall i :: 0 <= i < |t| ==> t[i] != Every[0];
    NameKeepsAsIs(t);
  }

  lemma SecondNameClean()
    ensures CleanName("Профилакторий Радуга") == "Профилакторий Радуга"
  {
    var t := "Профилакторий Радуга";
    assert forall i :: 0 <= i < |t| && i != 7 ==> t[i] != Every[0];
    assert t[8] != Every[1];
    NameKeepsAsIs(t);
  }

  lemma FirstPieces()
    ensures Widget[0..3] == "107" && Widget[6..20] == "ТК Центральный" && Widget[20..35] == Tail107
  {
    Chars();
    assert Head107[0..3] == "107" && Head107[6..20] == "ТК Центральный";
    assert Widget[0..3] == Widget[..20][0..3];
    assert Widget[6..20] == Widget[..20][6..20];
  }

  lemma SecondPieces()
    ensures Widget[35..38] == "220" && Widget[41..61] == "Профилакторий Радуга" && Widget[61..73] == Tail220
  {
    Chars();
    assert Head220[0..3] == "220" && Head220[6..26] == "Профилакторий Радуга";
    assert Widget[35..38] == Widget[35..61][0..3];
    assert Widget[41..61] == Widget[35..61][6..26];
  }

  lemma FirstBus()
    ensures ToBus(Widget, Entry(0, 3, 4, 5, 6, 20, 35)) == Bus("107", "ТК Центральный", ["3 мин", "11 мин"])
  {
    FirstEntry();
    EntryShape(Widget, Entry(0, 3, 4, 5, 6, 20, 35));
    FirstPieces();
    FirstNameClean();
    FirstTimes();
  }

  lemma SecondBus()
    ensures ToBus(Widget, Entry(35, 38, 39, 40, 41, 61, 73)) == Bus("220", "Профилакторий Радуга", ["8мин"])
  {
    SecondEntry();
    EntryShape(Widget, Entry(35, 38, 39, 40, 41, 61, 73));
    SecondPieces();
    SecondNameClean();
    SecondTimes();
  }

  lemma ExtractSample()
    ensures ExtractBuses(Widget) == [Bus("107", "ТК Центральный", ["3 мин", "11 мин"]),
                                Bus("220", "Профилакторий Радуга", ["8мин"])]
  {
    SampleEntries();
    FirstBus();
    SecondBus();
    var buses := ExtractBuses(Widget);
    assert |buses| == 2;
    assert buses[0] == ToBus(Widget, Entry(0, 3, 4, 5, 6, 20, 35));
    assert buses[1] == ToBus(Widget, Entry(35, 38, 39, 40, 41, 61, 73));
  }

  // ---------------------------------------------------------------------
  // format_buses on two records
  // ---------------------------------------------------------------------

  lemma FormatSample()
    ensures FormatBuses([Bus("1", "A", ["5 мин", "10 мин"]), Bus("2", "B", ["7 мин"])])
            == "1" + " – " + "A" + ": " + ("5 мин" + ", " + "10 мин") + "\n" + ("2" + " – " + "B" + ": " + "7 мин")
    ensures Split(FormatBuses([Bus("1", "A", ["5 мин", "10 мин"]), Bus("2", "B", ["7 мин"])]), "\n")
            == [Line(Bus("1", "A", ["5 мин", "10 мин"])), Line(Bus("2", "B", ["7 мин"]))]
  {
    var b1 := Bus("1", "A", ["5 мин", "10 мин"]);
    var b2 := Bus("2", "B", ["7 мин"]);
    assert ["5 мин", "10 мин"][1..] == ["10 мин"];
    var lines := Lines([b1, b2]);
    assert lines == [Line(b1), Line(b2)];
    assert lines[1..] == [Line(b2)];
    assert '\n' !in Line(b1) && '\n' !in Line(b2);
    FormatBusesLines([b1, b2]);
  }

  // ---------------------------------------------------------------------
  // get_buses_info with one attempt on the sample page
  // ---------------------------------------------------------------------

  /** No route asked for: every record of the block, one per line. */
  method AllRoutes() returns (res: string, fetches: nat)
    ensures fetches == 1
    ensures res == FormatBuses([Bus("107", "ТК Центральный", ["3 мин", "11 мин"]),
                                Bus("220", "Профилакторий Радуга", ["8мин"])])
  {
    var fetch := (i: nat) => Block(Widget);
    assert |Widget| > 0 by { Chars(); }
    BlockDecides(fetch, None, 1, 0);
    AnswerCases(ExtractBuses(Widget), None);
    ExtractSample();
    res, fetches := GetBusesInfo(fetch, None, 1);
  }

  /** The answer for route 107 on the sample block is its line. */
  lemma Answer107()
    ensures Answer(ExtractBuses(Widget), Some("107")) == Line(Bus("107", "ТК Центральный", ["3 мин", "11 мин"]))
  {
    ExtractSample();
    AnswerForFirst(ExtractBuses(Widget), "107");
  }

  /** Asking for the number of the first record answers with its line. */
  lemma AnswerForFirst(buses: seq<Bus>, n: string)
    requires |buses| > 0 && n != "" && buses[0].busNumber == n
    ensures Answer(buses, Some(n)) == Line(buses[0])
  {
    assert FindBus(buses, n) == Some(0);
    assert FormatBuses([buses[0]]) == Line(buses[0]);
  }

  /** Route 107 asked for: its single line, which begins with the number and
      the route name. */
  method OneRoute() returns (res: string, fetches: nat)
    ensures fetches == 1
    ensures res == Line(Bus("107", "ТК Центральный", ["3 мин", "11 мин"]))
    ensures res[..20] == "107" + " – " + "ТК Центральный"
  {
    var fetch := (i: nat) => Block(Widget);
    assert |Widget| > 0 by { Chars(); }
    BlockDecides(fetch, Some("107"), 1, 0);
    Answer107();
    res, fetches := GetBusesInfo(fetch, Some("107"), 1);
  }

  /** The sample text has no route 999. */
  lemma No999()
    ensures forall k :: 0 <= k < |ExtractBuses(Widget)| ==> ExtractBuses(Widget)[k].busNumber != "999"
  {
    ExtractSample();
  }

  /** Route 999 asked for, and the stop has no such route. */
  method MissingRoute() returns (res: string, fetches: nat)
    ensures fetches == 1
    ensures res == "Информация по маршруту " + "999" + " не найдена."
  {
    var fetch := (i: nat) => Block(Widget);
    assert |Widget| > 0 by { Chars(); }
    BlockDecides(fetch, Some("999"), 1, 0);
    No999();
    AnswerCases(ExtractBuses(Widget), Some("999"));
    res, fetches := GetBusesInfo(fetch, Some("999"), 1);
  }

  /** The fetch fails: the error message, after one attempt. */
  method FetchFails() returns (res: string, fetches: nat)
    ensures fetches == 1
    ensures res == ErrorPrefix + "network error"
  {
    var fetch := (i: nat) => FetchError("network error");
    res, fetches := GetBusesInfo(fetch, None, 1);
    FirstDecisiveFrom(fetch, 0, 1, 0);
  }

  /** The page never has the block: two attempts, then the attempts are
      reported as used up. */
  method NoBlock() returns (res: string, fetches: nat)
    ensures fetches == 2
    ensures res == Exhausted
  {
    var fetch := (i: nat) => Block("");
    res, fetches := GetBusesInfo(fetch, None, 2);
    AllEmptyExhausts(fetch, 0, 2);
  }

  /** With `max_retries` zero no attempt is made. */
  method NoAttempts() returns (res: string, fetches: nat)
    ensures fetches == 0
    ensures res == Exhausted
  {
    var fetch := (i: nat) => Block(Widget);
    res, fetches := GetBusesInfo(fetch, None, 0);
  }

  /** With the default `max_retries` and a page that never has the block,
      ten attempts are made. */
  method DefaultAttempts() returns (res: string, fetches: nat)
    ensures fetches == 10
    ensures res == Exhausted
  {
    var fetch := (i: nat) => Block("");
    AllEmptyExhausts(fetch, 0, DefaultMaxRetries);
    res, fetches := GetBusesInfo(fetch, None, DefaultMaxRetries);
  }
}
