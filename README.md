# book_flight in Dafny

A model of the console flight-booking script `book_flight.py`. The script
validates its arguments (a departure date that must not be in the past, two
three-character IATA codes), searches the Kiwi.com flight-search API for one
matching flight, and books that flight with fixed passenger details,
reporting the reservation code (PNR).

The model covers the deterministic logic around the two HTTP round trips:

- `Validators`: `iata` and the date comparison of `ymdate`. The parsed date
  and the current moment are parameters.
- `Requests`: the search URL (nine raw `name=value` pairs after the
  endpoint), the JSON booking body with the `Passenger` record, and readings
  of each back into its parts (for the query, a split-only reading on `&` and
  the first `=`).
- `Responses`: decoded search and booking responses, and how the program
  interprets them. A key it reads that is absent, an empty result list or a
  body that is not a JSON object is `MalformedResponse`, because the script
  raises there.
- `Flights`: the `Flight` object as a class. Its constructor derives the date
  string, the trip shape and the sort order. `GetBookingToken` sets `token`,
  `SetPassenger` sets `passenger` and `Book` sets `pnr`. The invariant
  `Valid()` says that a reservation code exists only once a token does, that
  both "days in destination" fields hold the same numeral, and that one-way
  trips send "0". The HTTP calls are the parameters `get` and `post`: each is
  the endpoint's response to what is sent.
- `Text` and `Wrappers`: upper-casing, decimal rendering and parsing,
  splitting and joining; `Option` and `Result`.

Where the code and the intended behaviour differ, the model follows the code:

- IATA codes are checked for length only, not for being letters.
- A booking response without a `"status"` key raises (`MalformedResponse`).
  It is not counted as "not booked".
- `--one-way` and `--return` share the destination `nights`. argparse fills in
  the default of the first action registered for it, `--one-way`'s None, so a
  run with neither flag searches one-way; only `--return 0` asks for a round
  trip of 0 nights.

## Model

| member | source | states |
|---|---|---|
| Text.Upper | book_flight.py:40 | `code.upper()`: same length, each character upper-cased (ASCII letters), nothing else changed |
| Text.NatToString | book_flight.py:50 | `str(n)` for n >= 0 is a non-empty run of digits with no leading zero |
| Text.ParseNatToString | book_flight.py:66-67 | the numeral `str(n)` reads back as n |
| Validators.Iata | book_flight.py:33-42 | succeeds exactly when the code has 3 characters; the result is then the code upper-cased; otherwise the "not valid IATA code" error naming the code |
| Validators.IataIdempotent | book_flight.py:39-40 | validating an already validated code returns it unchanged |
| Validators.IataIgnoresCase | book_flight.py:39-40 | two codes that differ only in letter case validate to the same code |
| Validators.YmDate | book_flight.py:14-30 | `ymdate` as written: an unparsable date gives "not valid date"; a success returns the parsed date unchanged; a refusal of a parsed date is "not future date"; a date on an earlier day is always refused |
| Validators.YmDateAccepts | book_flight.py:21-30 | an unparsable date gives "not valid date"; a parsed date is returned unchanged exactly when its day is after today, or it is today and the clock's microsecond is 0; otherwise "not future date" |
| Validators.YmDateRefusesToday | book_flight.py:23-25 | today's date given at 00:00:00.000001 is refused as "not future date" |
| Validators.YmDateFixed | book_flight.py:21-30 | the corrected definition, with the microsecond zeroed as well: same error cases as `YmDate`, and today's date is always accepted |
| Validators.YmDateFixedAccepts | book_flight.py:21-30 | with the microsecond zeroed too, a parsed date is returned exactly when its day is not before today |
| Requests.QueryRoundTrip | book_flight.py:84-93 | a raw `name=value&...` query whose names hold no `&` or `=` and values no `&` splits back into the same parameter list |
| Requests.SearchQueryRoundTrip | book_flight.py:84-93 | the nine search parameters, in source order with `dateTo` equal to `dateFrom` and `limit=1` last, split back out of the query when no value holds `&` |
| Requests.RawValuesAreAmbiguous | book_flight.py:87-88 | values are not escaped: `flyFrom=&=B` is the same query as an empty `flyFrom` followed by a parameter named "" |
| Requests.PassengerJson | book_flight.py:121-128 | the `passengers` object carries the six passenger fields as strings, read back unchanged |
| Requests.RequestBody | book_flight.py:120-130 | the booking body holds `booking_token`, `passengers`, `currency` and `bags`, each the value given |
| Requests.RequestBodyRoundTrip | book_flight.py:120-130 | reading the booking body gives back exactly the token, passenger, currency and bags put in |
| Responses.InterpretSearch | book_flight.py:99-107 | found exactly when the status is 200, `_results` > 0 and the first entry has a `booking_token`, which is then the token; a non-200 status or `_results` <= 0 is "not found" whatever else the body holds; every other case is a malformed response |
| Responses.InterpretBooking | book_flight.py:139-147 | booked exactly when the status is 200, `status` is "confirmed" and `pnr` is present, which is then the code; a non-200 status or any other `status` is "not booked"; a missing `status`, or a confirmed one without `pnr`, is a malformed response |
| Flights.FormatDate | book_flight.py:50 | the date string `D/M/YYYY` holds no `&` |
| Flights.FormatDateRoundTrip | book_flight.py:50 | the unpadded `str(day)/str(month)/str(year)` reads back as the same day, month and year |
| Flights.Shape | book_flight.py:59-67 | both days-in-destination fields are equal numerals with no zero-padding; "round" exactly when nights is given and >= 0, and then the fields read back as that number; otherwise "oneway" with "0" |
| Flights.DefaultRunIsOneWay | book_flight.py:169-171 | with neither flag `nights` is None, `--one-way`'s default, which gives a one-way trip with "0" days; `--return 0` gives a round trip of "0" days |
| Flights.Flight.constructor | book_flight.py:47-78 | establishes `Valid()`; `date` is the formatted departure date; codes, bags and currency are kept; trip shape as `Shape`; sort is "price" when none is given, otherwise the argument verbatim; currency defaults to "CZK"; no token, passenger or code yet |
| Flights.Flight.BuildSearchUrl | book_flight.py:84-93 | the URL built by successive appends is the endpoint, "?" and the query of the flight's nine parameters |
| Flights.SearchUrlReadsBack | book_flight.py:84-93 | for a valid flight whose codes and sort order hold no `&`, splitting the query on `&` and at the first `=` gives back exactly the flight's parameters |
| Flights.Flight.GetBookingToken | book_flight.py:81-107 | sends the flight's search URL; returns true exactly when the response yields a token, and then stores it; false on "not found"; a malformed response raises; the token is unchanged unless true; `Valid()` kept |
| Flights.Flight.SetPassenger | book_flight.py:109-112 | the passenger is set; `Valid()` kept |
| Flights.Flight.Book | book_flight.py:114-147 | without a token, then without a passenger, fails on that missing attribute; otherwise posts the body of token, passenger, currency and bags; returns true exactly when the response is booked, and then stores its code; the code is unchanged unless true; `Valid()` kept |

## Findings

| source | as written | input that shows it | evidently intended | confidence | as-written member | corrected member |
|---|---|---|---|---|---|---|
| book_flight.py:24-25 | `today` keeps the current microsecond, because `replace` zeroes only hour, minute and second; today's date at midnight therefore compares below it | `--date` equal to today's date, run at any moment whose microsecond is not 0 | a departure today is accepted, since the time of day is zeroed to compare calendar days | high, not executed | Validators.YmDate, Validators.YmDateRefusesToday | Validators.YmDateFixed, Validators.YmDateFixedAccepts |

`Validators.YmDate` models the code as written and `Validators.YmDateAccepts`
states what it accepts. `Validators.YmDateFixed` is the corrected definition:
it also zeroes the microsecond.

## Left out

- The GET and POST calls (book_flight.py:96, 136) are the parameters `get` and `post`. The booking endpoint address (line 117), the `content-type` header (line 133) and transport failures are not modelled. A non-200 status stands for every unsuccessful response.
- JSON decoding (lines 101, 141) is not modelled. Responses arrive decoded, with absent keys as `None`. A token, `status` or `pnr` that is not a JSON string is outside the model. A float `_results` is outside the model. A non-numeric or null one makes line 103 raise TypeError; the model cannot hold such a value.
- The query is read back by splitting only: percent-decoding, `+` as a space and a `#` that starts a fragment are not modelled. A code that passes `iata` with `#`, `%` or `+` in it would reach a real server differently from what `SearchUrlReadsBack` states.
- `json.dumps` (line 136) is not modelled: the body is a JSON value, not its text.
- `datetime.strptime` and `datetime.today()` (lines 22-23) are parameters. `parsed` is None when the text does not parse. Calendar validity is what `strptime` ensures, so the model does not check it.
- Argument parsing and the top-level script (lines 162-197) are out of scope. This covers the `--cheapest`/`--fastest` constants, the `--bags` default and the printed messages. The methods `Flights.ConfirmedBooking` and `Flights.NothingFound` check the two outcomes of the script's flow as client code.
- `Passenger.__init__` coerces each field with `str()` (lines 151-159). This is not modelled; a passenger is a record of six strings.
- Text.Upper: upper-cases ASCII letters only. Python's `str.upper` also maps other letters and can lengthen a string, e.g. 'ß' becomes "SS". So for such codes `iata` can return more than three characters, which the model does not capture.
- Validators.Iata: the result has three characters only under the ASCII model of upper-casing (see Text.Upper).
