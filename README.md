# Arrival-text pipeline of TransportControl, in Dafny

This project models the part of the TransportControl Telegram bot that turns a bus stop's
arrival widget into an answer for the user (`src/map_parser.py`). It has three steps:

- **extract_buses** reads the widget text, in which entries run into one another
  (`"…11 мин220 – …"`). It returns one record per entry: the bus number, the cleaned route
  name and the arrival times.
- **format_buses** renders the records: one line `"<number> – <name>: <t1>, <t2>, …"`
  per record, joined by line feeds, and a fixed sentence when there are none.
- **get_buses_info** makes at most `max_retries` attempts to fetch the page and find the
  block. It stops at the first fetch error or the first non-empty block, and answers with
  every route or with the one route asked for.

The modules follow the source:

- `Lexing`: character classes, digit and whitespace runs, and the lookahead conditions of
  the pattern.
- `Scanning`: the left-to-right search shared by `re.finditer` and `re.findall`.
- `TimeTokens`: `re.findall(r"\d+\s*мин", …)`.
- `EntryPattern`: the entry pattern as an explicit backtracking scanner.
- `Extract`: the records and the cleaning of the name.
- `Format`: format_buses.
- `Retrieve`: get_buses_info, as a method with a loop.
- `Samples`: the examples of the repository's tests, proved.

The regular expression

    (\d+)\s*(?:–|to|до)\s*([^\d:]+?)(?=каждые|:|\d+\s*мин|завтра)(.*?)(?=\d{1,3}\s*(?:–|to|до)|$)

is written as a scanner that tries the alternatives in the order of Python's backtracking
engine:
- The digit run and the whitespace before the separator are maximal. `Lexing.HeadIsMaximal`
  proves that no shorter run can lead to a match.
- The greedy `\s*` before the name is tried longest first and gives back one character at a
  time.
- For each length of that `\s*`, the lazy name is tried shortest first. The remainder of the
  pattern is passed in as a continuation.
- The lazy time span stops at the first position where the closing lookahead holds. It never
  crosses a line feed, because `.` does not match one. `$` holds at the end of the text and
  just before a final line feed.

Some behaviour that follows from the code is modelled as written:
- `\d{1,3}` in the closing lookahead fails at the first digit of a run of four or more
  digits, but holds three digits before the end of that run. When such a route number
  follows another entry, that entry's time span therefore runs on over the leading digits,
  and the new entry's number is read from the last three digits only.
- Since the time span cannot cross a line feed, an entry followed by a line feed before the
  next entry (or the end) has no match at all: in `"107 – A: 5 мин\n220 – B: 7 мин"` no
  span starting after `A` reaches a stop, so only route 220 is returned.
- `replace("каждые", "")` is one pass from left to right. Removing an occurrence can bring a
  new one together (`Extract.RemoveAllCanRejoin`).
  - Inside a match, the lazy name stops before the first `каждые` it could stop at.
  - So when group 2 holds no line feed, the cleaned name holds no `каждые`
    (`Extract.CleanNameHasNoEvery`).
  - With a line feed in group 2, the word can survive.
  - The code therefore does not remove every occurrence in general. The model follows the
    code.

The fetch is an input: attempt `i` sees `fetch(i)`, either the message of a
`requests.RequestException` or the text of the block (empty when the page has none).
`Retrieve.GetBusesInfo` also returns the number of attempts it made.

## Model

| member | source | states |
|---|---|---|
| Lexing.IsSpace | src/map_parser.py:27 | `\s`: the characters for which `str.isspace()` holds |
| Lexing.TimeTokenAt | src/map_parser.py:34 | `\d+\s*мин` matches at a position, read with the maximal digit and whitespace runs (shown equal to the regular expression's reading by `Lexing.TimeTokenMatchesRegex`) |
| Lexing.NameStopAt | src/map_parser.py:27 | the lookahead after the name: `каждые`, a colon, a time token or `завтра` begins at the position |
| Lexing.EntryStartAt | src/map_parser.py:28 | the first alternative of the closing lookahead: one to three digits (the whole digit run), whitespace and a separator |
| Lexing.EndAnchorAt | src/map_parser.py:28 | `$` without MULTILINE: the end of the text or just before a final line feed |
| Lexing.SpanStopAt | src/map_parser.py:28 | the closing lookahead: the next entry begins or `$` holds |
| Lexing.SeparatorLen | src/map_parser.py:27 | the separator (an en dash, `to` or `до`) occurs at a position exactly when the length is positive; length 1 is the dash, length 2 is `to` or `до` |
| Lexing.RunSplitIsMaximal | src/map_parser.py:27 | any split into digits then whitespace that is followed by neither is the split into maximal runs |
| Lexing.HeadIsMaximal | src/map_parser.py:27 | the head of the pattern (digits, whitespace, separator) matches only with the maximal digit and whitespace runs, so group 1 is the whole digit run |
| Lexing.TimeTokenMatchesRegex | src/map_parser.py:34 | `\d+\s*мин` matches at a position exactly when some split into digits, whitespace and `мин` exists, and every such split ends where the scanner's match ends |
| Lexing.EntryStartMatchesRegex | src/map_parser.py:28 | the scanner's reading of the next-entry lookahead (one to three digits, whitespace, separator) holds exactly when the regular expression's reading does, including the three-digit bound |
| Scanning.Scan | src/map_parser.py:31 | every collected match starts at or after the scan start and is a match of the pattern there; matches come in text order without overlap |
| Scanning.NothingSkipped | src/map_parser.py:31 | every position where the pattern matches lies inside a collected match |
| Scanning.MatchesAreLeftmost | src/map_parser.py:31 | before the first collected match the pattern matches nowhere, so each match is the leftmost one |
| TimeTokens.TokenSpansAreMatches | src/map_parser.py:34 | `findall` collects whole `\d+\s*мин` matches, in text order, without overlap |
| TimeTokens.TokenSpansComplete | src/map_parser.py:34 | `findall` misses no position where `\d+\s*мин` matches |
| TimeTokens.MatchIsTimeToken | src/map_parser.py:34 | the text of a match, cut out, is one whole time token |
| TimeTokens.FindTimes | src/map_parser.py:34 | one string per collected match, in order, each being that match's text, and each a digit run, optional whitespace and `мин` |
| EntryPattern.LazyDots | src/map_parser.py:28 | lazy `.*?` before a lookahead: the first position where the lookahead holds with no line feed before it, or none when no such position exists |
| EntryPattern.LazySpanEnd | src/map_parser.py:28 | group 3 ends at the first position where the next entry begins or the text ends, with no line feed before it |
| EntryPattern.LazyName | src/map_parser.py:27 | lazy `[^\d:]+?`: the shortest extension of the name after which the rest of the pattern matches, or none when no extension does |
| EntryPattern.NameAfter | src/map_parser.py:27 | group 2 starts at the longest whitespace prefix for which some name fits, and no fitting name starts later; none when none fits |
| EntryPattern.IsEntry | src/map_parser.py:26-28 | a match at its start: group 1 the whole digit run, the separator, group 2 and group 3 as the pattern demands, and no longer `\s*` before the name or shorter name that also matches |
| EntryPattern.EntryAt | src/map_parser.py:26-28 | the match at a position is the engine's first choice (maximal head, latest name start, shortest name, shortest span); when there is none, no match exists there |
| EntryPattern.Entries | src/map_parser.py:31 | every match `finditer` yields is the pattern's match at its own start |
| EntryPattern.EntriesPlaced | src/map_parser.py:31-32 | each yielded match has its groups in order inside the text; group 1 is digits and group 2 holds no digit and no colon |
| EntryPattern.EntriesInOrder | src/map_parser.py:31 | matches are yielded from left to right without overlap |
| EntryPattern.EntriesMissNothing | src/map_parser.py:31 | every position where the pattern matches lies inside a yielded match |
| Extract.RemoveAll | src/map_parser.py:33 | `replace(w, "")` never lengthens the text and introduces no new character |
| Extract.RemoveAllAbsent | src/map_parser.py:33 | a text without the word is left unchanged |
| Extract.RemoveAllLeftmost | src/map_parser.py:33 | `replace` keeps the text before the leftmost occurrence, drops the occurrence and goes on after it |
| Extract.RemoveAllCanRejoin | src/map_parser.py:33 | `"каж" + "каждые" + "дые"` becomes `"каждые"`: one pass can leave the word behind |
| Extract.TrimStart | src/map_parser.py:33 | skips exactly the maximal run of `–`, `:` and space characters |
| Extract.TrimEnd | src/map_parser.py:33 | backs over exactly the maximal run of `–`, `:` and space characters at the end |
| Extract.Strip | src/map_parser.py:33 | `strip("–: ")` leaves no strip character at either end and introduces no new character |
| Extract.StripIsTrim | src/map_parser.py:33 | `strip` of a text framed by strip characters gives back exactly the text, when the text neither starts nor ends with a strip character |
| Extract.CleanName | src/map_parser.py:33 | the cleaned name uses only characters of the raw name and has no strip character at either end |
| Extract.EveryEndsName | src/map_parser.py:27 | inside a match whose group 2 has no line feed, `каждые` cannot begin after the first character of group 2 |
| Extract.CleanNameHasNoEvery | src/map_parser.py:27-33 | when group 2 holds no line feed, the cleaned route name holds no `каждые` |
| Extract.ToBus | src/map_parser.py:32-35 | the record of a match has a non-empty digit bus number, a route name without digits, colons or strip characters at the ends, and whole time tokens |
| Extract.ExtractBuses | src/map_parser.py:19-36 | one record per yielded match, each well formed |
| Extract.ExtractBusesFields | src/map_parser.py:32-35 | record `k` holds group 1, the cleaned group 2 and the times of group 3 of the `k`-th match |
| Format.Join | src/map_parser.py:42 | `sep.join` of no parts is empty and of one part is that part; with more parts the result starts with the first part followed by the separator; `Format.SplitJoin` takes it apart again |
| Format.Split | src/map_parser.py:44 | `s.split(sep)`, the inverse of the `"\n".join` on line 44 and of the `", ".join` on line 42: at least one piece, found left to right without overlap |
| Format.Line | src/map_parser.py:42-43 | a line is `"<number> – <name>"`, then `": "`, then the times joined by `", "` |
| Format.LineTimes | src/map_parser.py:42-43 | splitting what follows the name and `": "` at `", "` gives back exactly the record's times, for a non-empty list of time tokens |
| TimeTokens.TimeTokenHasNoComma | src/map_parser.py:34 | no time token holds a comma, so `", "` separates them unambiguously |
| Format.Lines | src/map_parser.py:40-43 | one line per record, in order |
| Format.FormatBuses | src/map_parser.py:39-44 | the placeholder is returned exactly when there are no records |
| Format.JoinedLinesNotPlaceholder | src/map_parser.py:44 | the lines of at least one record joined are neither empty nor the placeholder |
| Format.LineIsNotPlaceholder | src/map_parser.py:43-44 | every line holds an en dash where the placeholder has none |
| Format.SplitJoin | src/map_parser.py:42-44 | joining at least one piece, none holding the separator's first character, and splitting again at the same separator gives the pieces back |
| Format.FormatBusesLines | src/map_parser.py:39-44 | for records whose lines have no line feed, splitting the output at line feeds gives exactly one line per record, in order |
| Retrieve.NotFound | src/map_parser.py:66 | the message is `"Информация по маршруту "`, the requested number, then `" не найдена."`; the number can be read back from its place |
| Retrieve.Asked | src/map_parser.py:62 | `if bus_number:`: a number was given and it is not the empty string |
| Retrieve.Answer | src/map_parser.py:62-68 | the answer from a block's records: the first record with the asked number formatted alone, the not-found message, or all records formatted (cases proved in `Retrieve.AnswerCases`) |
| Retrieve.FindBus | src/map_parser.py:63-64 | the first record with the number, or none when no record has it |
| Retrieve.Outcome | src/map_parser.py:53-68 | an attempt decides exactly when it is not an empty block; a fetch error gives the error message |
| Retrieve.FirstDecisive | src/map_parser.py:52-59 | the first attempt below the limit that is not an empty block, every attempt before it being an empty block; none when all are empty |
| Retrieve.Respond | src/map_parser.py:62-68 | the loop over the records gives the answer for the records and the number asked for |
| Retrieve.GetBusesInfo | src/map_parser.py:47-69 | the answer is that of the first deciding attempt, after exactly that many fetches; when none decides, `max(max_retries, 0)` fetches and the exhausted message |
| Retrieve.AllEmptyExhausts | src/map_parser.py:52-59 | when every allowed attempt finds an empty block, no attempt decides |
| Retrieve.FirstDecisiveFrom | src/map_parser.py:52-59 | a deciding attempt after only empty blocks is the first deciding one |
| Retrieve.ErrorStopsTheLoop | src/map_parser.py:53-56 | a fetch error after only empty blocks ends the loop at that attempt with `"Ошибка при получении данных: <msg>"` |
| Retrieve.BlockDecides | src/map_parser.py:57-68 | a non-empty block after only empty blocks ends the loop with the answer built from its records |
| Retrieve.AnswerCases | src/map_parser.py:62-68 | no route asked: all records formatted; asked and present: the line of the first record with the number; asked and absent: the not-found message |
| Samples.ExtractSample | tests/map_parser_test.py:55-63 | the test's widget text gives exactly the records 107 and 220 with their names and times |
| Samples.FormatSample | tests/map_parser_test.py:69-76 | the two test records give the two expected lines joined by a line feed |
| Samples.AllRoutes | tests/map_parser_test.py:87-92 | no route asked, one attempt: both records formatted |
| Samples.OneRoute | tests/map_parser_test.py:95-99 | route 107 asked: its line, starting with `"107 – ТК Центральный"` |
| Samples.MissingRoute | tests/map_parser_test.py:102-106 | route 999 asked: `"Информация по маршруту 999 не найдена."` |
| Samples.FetchFails | tests/map_parser_test.py:109-113 | a failing fetch gives the error message after one attempt |
| Samples.NoBlock | tests/map_parser_test.py:116-120 | two attempts without a block give the exhausted message after two fetches |
| Samples.NoAttempts | src/map_parser.py:52 | with `max_retries` zero there is no fetch and the exhausted message |
| Samples.DefaultAttempts | src/map_parser.py:47-52 | with the default `max_retries` and no block there are ten fetches |

## Left out

- `fetch_html` (network I/O through `requests`) and `parse_arrival_block` (HTML parsing through
  BeautifulSoup) are not modelled. Each attempt's outcome is an input. The URL parameter is
  therefore absent, and an exception message is an opaque string.
- Exceptions other than `requests.RequestException` (for instance one raised inside the
  parser) are not modelled. The code does not catch them either.
- `\d` is restricted to the ASCII digits; Python also accepts the other Unicode decimal
  digits. `\s` is the fixed set of characters for which `str.isspace()` holds.
- Python's handling of empty matches in `finditer` and `findall` is not modelled. Neither
  pattern can match the empty string.
- Extract.CleanNameHasNoEvery: requires that group 2 holds no line feed. Without that, one
  pass of `replace` can leave the word behind (`Extract.RemoveAllCanRejoin`).
- Format.FormatBusesLines: requires that no record's line holds a line feed. A route name
  taken across a line feed would split into two lines.
- Format.Split: models `str.split("\n")`. The repository's test reads the output back with
  `splitlines()`, which also breaks at `\r`, `\r\n`, `\x0b`, `\x0c`, `\x1c`–`\x1e`, `\x85`,
  `\u2028` and `\u2029` and drops a final empty piece. For lines holding none of those
  characters the two agree; the model does not cover the others.
- `src/tg_bot.py` (the Telegram handlers), `src/bus_stop_dao.py` (SQLite access) and
  `config/env.py` (environment loading) are not part of this model. They are user
  interface, storage and configuration.
