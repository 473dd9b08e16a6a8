/** get_buses_info (src/map_parser.py:47-69): up to `max_retries` attempts
    to fetch the stop page and find its arrival block; the first attempt
    that fails to fetch, or that finds a non-empty block, decides the
    answer.

    Fetching the page (fetch_html) and locating the block
    (parse_arrival_block) are outside the model: attempt `i` is given as
    `fetch(i)`, either the message of a `requests.RequestException` or the
    text of the block, which is empty when the page has none. */
module Retrieve {
  import opened Wrappers
  import opened Extract
  import opened Format

  /** What one attempt of the loop sees. */
  datatype Attempt = FetchError(message: string) | Block(text: string)

  /** The default of `max_retries`. */
  const DefaultMaxRetries: int := 10

  const ErrorPrefix: string := "Ошибка при получении данных: "
  const Exhausted: string := "Не удалось получить информацию после " + "нескольких попыток."

  const NotFoundHead: string := "Информация по маршруту "
  const NotFoundTail: string := " не найдена."

  /** The answer when the requested route is not on the stop's board: the
      requested number stands between the fixed head and tail, and can be
      read back from its place. */
  function NotFound(busNumber: string): (msg: string)
    ensures |msg| == |NotFoundHead| + |busNumber| + |NotFoundTail|
    ensures msg[..|NotFoundHead|] == NotFoundHead
    ensures msg[|NotFoundHead|..|NotFoundHead| + |busNumber|] == busNumber
    ensures msg[|NotFoundHead| + |busNumber|..] == NotFoundTail
  {
    var msg := NotFoundHead + busNumber + NotFoundTail;
    assert msg[..|NotFoundHead|] == NotFoundHead;
    assert msg[|NotFoundHead|..|NotFoundHead| + |busNumber|] == busNumber;
    assert msg[|NotFoundHead| + |busNumber|..] == NotFoundTail;
    msg
  }

  /** `if bus_number:`: a route was asked for, and it is not the empty
      string. */
  predicate Asked(busNumber: Option<string>) {
    busNumber.Some? && busNumber.value != ""
  }

  /** Position of the first record with the bus number `n`, if any. */
  function FindBus(buses: seq<Bus>, n: string): (r: Option<nat>)
    ensures r.Some? ==> r.value < |buses| && buses[r.value].busNumber == n
    ensures r.Some? ==> forall j :: 0 <= j < r.value ==> buses[j].busNumber != n
    ensures r.None? ==> forall j :: 0 <= j < |buses| ==> buses[j].busNumber != n
    decreases |buses|
  {
    if |buses| == 0 then None
    else if buses[0].busNumber == n then Some(0)
    else
      match FindBus(buses[1..], n)
      case None => None
      case Some(j) => Some(j + 1)
  }

  /** The answer built from the records of a non-empty block
      (src/map_parser.py:62-68). */
  function Answer(buses: seq<Bus>, busNumber: Option<string>): string {
    if Asked(busNumber) then
      match FindBus(buses, busNumber.value)
      case Some(i) => FormatBuses([buses[i]])
      case None => NotFound(busNumber.value)
    else FormatBuses(buses)
  }

  /** How one attempt ends the loop: with an answer, or with `None` when the
      block is empty and the loop goes on (src/map_parser.py:53-68). */
  function Outcome(a: Attempt, busNumber: Option<string>): (r: Option<string>)
    ensures r.None? <==> a == Block("")
    ensures a.FetchError? ==> r == Some(ErrorPrefix + a.message)
  {
    match a
    case FetchError(message) => Some(ErrorPrefix + message)
    case Block(text) => if text == "" then None else Some(Answer(ExtractBuses(text), busNumber))
  }

  /** The first attempt from `i` on, below `n`, that ends the loop. */
  function FirstDecisive(fetch: nat -> Attempt, i: nat, n: int): (r: Option<nat>)
    ensures r.Some? ==> i <= r.value < n && fetch(r.value) != Block("")
    ensures r.Some? ==> forall j :: i <= j < r.value ==> fetch(j) == Block("")
    ensures r.None? ==> forall j :: i <= j < n ==> fetch(j) == Block("")
    decreases n - i
  {
    if n <= i then None
    else if fetch(i) != Block("") then Some(i)
    else FirstDecisive(fetch, i + 1, n)
  }

  /** The body of the loop once the records of a non-empty block are
      extracted (src/map_parser.py:62-68): either look for the first one with
      the requested number or show them all. */
  method Respond(buses: seq<Bus>, busNumber: Option<string>) returns (res: string)
    ensures res == Answer(buses, busNumber)
  {
    if Asked(busNumber) {
      var k := 0;
      while k < |buses|
        invariant k <= |buses|
        invariant forall j :: 0 <= j < k ==> buses[j].busNumber != busNumber.value
      {
        if buses[k].busNumber == busNumber.value {
          assert FindBus(buses, busNumber.value) == Some(k);
          return FormatBuses([buses[k]]);
        }
        k := k + 1;
      }
      res := NotFound(busNumber.value);
    } else {
      res := FormatBuses(buses);
    }
  }

  /** get_buses_info.  Returns the answer and the number of attempts made
      (calls of fetch_html).  The answer is that of the first attempt that
      fails to fetch or finds a non-empty block, made after exactly as many
      attempts; when there is none among the first `maxRetries`, every one of
      them was made and the answer says the attempts were used up. */
  method GetBusesInfo(fetch: nat -> Attempt, busNumber: Option<string>, maxRetries: int)
    returns (res: string, fetches: nat)
    ensures match FirstDecisive(fetch, 0, maxRetries)
            case Some(i) => fetches == i + 1 && Outcome(fetch(i), busNumber) == Some(res)
            case None => fetches == (if maxRetries < 0 then 0 else maxRetries) && res == Exhausted
  {
    var i: nat := 0;
    while i < maxRetries
      invariant i <= maxRetries || i == 0
      invariant FirstDecisive(fetch, 0, maxRetries) == FirstDecisive(fetch, i, maxRetries)
      decreases maxRetries - i
    {
      var attempt := fetch(i);
      fetches := i + 1;
      match attempt {
        case FetchError(message) =>
          return ErrorPrefix + message, fetches;
        case Block(text) =>
          if text == "" {
            i := i + 1;
            continue;
          }
          var buses := ExtractBuses(text);
          res := Respond(buses, busNumber);
          return;
      }
    }
    fetches := i;
    res := Exhausted;
  }

  // ---------------------------------------------------------------------
  // Properties of the retry loop
  // ---------------------------------------------------------------------

  /** When every allowed attempt finds an empty block, none decides: all
      `maxRetries` attempts are made (none when it is zero or negative) and
      the attempts are reported as used up. */
  lemma {:induction false} AllEmptyExhausts(fetch: nat -> Attempt, k: nat, n: int)
    requires forall j :: k <= j < n ==> fetch(j) == Block("")
    ensures FirstDecisive(fetch, k, n) == None
    decreases n - k
  {
    if k < n {
      assert fetch(k) == Block("");
      AllEmptyExhausts(fetch, k + 1, n);
    }
  }

  /** A fetch error ends the loop at once with the error message: no later
      attempt is made. */
  lemma {:induction false} ErrorStopsTheLoop(fetch: nat -> Attempt, busNumber: Option<string>, maxRetries: int, i: nat)
    requires i < maxRetries && fetch(i).FetchError?
    requires forall j :: 0 <= j < i ==> fetch(j) == Block("")
    ensures FirstDecisive(fetch, 0, maxRetries) == Some(i)
    ensures Outcome(fetch(i), busNumber) == Some(ErrorPrefix + fetch(i).message)
  {
    FirstDecisiveFrom(fetch, 0, maxRetries, i);
  }

  /** When attempt `i` decides and every attempt from `k` before it found an
      empty block, the first deciding attempt from `k` on is `i`. */
  lemma {:induction false} FirstDecisiveFrom(fetch: nat -> Attempt, k: nat, n: int, i: nat)
    requires k <= i < n && fetch(i) != Block("")
    requires forall j :: k <= j < i ==> fetch(j) == Block("")
    ensures FirstDecisive(fetch, k, n) == Some(i)
    decreases i - k
  {
    if k < i {
      assert fetch(k) == Block("");
      FirstDecisiveFrom(fetch, k + 1, n, i);
    }
  }

  /** A non-empty block ends the loop at once with the answer built from the
      records extracted from it. */
  lemma {:induction false} BlockDecides(fetch: nat -> Attempt, busNumber: Option<string>, maxRetries: int, i: nat)
    requires i < maxRetries && fetch(i).Block? && fetch(i).text != ""
    requires forall j :: 0 <= j < i ==> fetch(j) == Block("")
    ensures FirstDecisive(fetch, 0, maxRetries) == Some(i)
    ensures Outcome(fetch(i), busNumber) == Some(Answer(ExtractBuses(fetch(i).text), busNumber))
  {
    FirstDecisiveFrom(fetch, 0, maxRetries, i);
  }

  /** The answer for a list of records: every record when no route was asked
      for; otherwise the single line of the first record with the requested
      number, or the not-found message when there is none. */
  lemma AnswerCases(buses: seq<Bus>, busNumber: Option<string>)
    ensures !Asked(busNumber) ==> Answer(buses, busNumber) == FormatBuses(buses)
    ensures Asked(busNumber) && (exists k :: 0 <= k < |buses| && buses[k].busNumber == busNumber.value) ==>
              exists k :: 0 <= k < |buses| && buses[k].busNumber == busNumber.value
                && (forall j :: 0 <= j < k ==> buses[j].busNumber != busNumber.value)
                && Answer(buses, busNumber) == Line(buses[k])
    ensures Asked(busNumber) && (forall k :: 0 <= k < |buses| ==> buses[k].busNumber != busNumber.value) ==>
              Answer(buses, busNumber) == NotFound(busNumber.value)
  {
    if Asked(busNumber) && FindBus(buses, busNumber.value).Some? {
      var k := FindBus(buses, busNumber.value).value;
      assert FormatBuses([buses[k]]) == Line(buses[k]);
    }
  }
}
