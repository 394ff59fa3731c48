/**
 * The `Flight` object of book_flight.py:45-147: the fields its constructor
 * derives from the validated arguments, the search it runs for a booking
 * token, and the booking it submits with that token. The two HTTP calls are
 * the parameters `get` and `post`: the response each endpoint gives to what
 * is sent.
 */
module Flights {
  import opened Wrappers
  import opened Text
  import opened Validators
  import opened Requests
  import opened Responses

  /** The currency a flight is priced in when none is given. */
  const DefaultCurrency := "CZK"

  /** The departure date as the search API takes it: D/M/YYYY, no zero-padding. */
  function FormatDate(d: Date): (s: string)
    ensures '&' !in s
  {
    var day, month, year := NatToString(d.day), NatToString(d.month), NatToString(d.year);
    assert '&' !in day && '&' !in month && '&' !in year;
    day + "/" + month + "/" + year
  }

  /** How the search API reads such a date back: three numerals separated by '/'. */
  function ParseDate(s: string): Option<Date>
  {
    var parts := Split(s, '/');
    if |parts| != 3 then None
    else match (ParseNat(parts[0]), ParseNat(parts[1]), ParseNat(parts[2]))
      case (Some(day), Some(month), Some(year)) => Some(Date(year, month, day))
      case _ => None
  }

  /** The unpadded date is unambiguous: reading it back gives day, month and year. */
  lemma FormatDateRoundTrip(d: Date)
    ensures ParseDate(FormatDate(d)) == Some(d)
  {
    var day, month, year := NatToString(d.day), NatToString(d.month), NatToString(d.year);
    assert '/' !in day && '/' !in month && '/' !in year;
    assert [day, month, year][1..] == [month, year] && [month, year][1..] == [year];
    assert Join([month, year], '/') == month + ['/'] + year;
    assert Join([day, month, year], '/') == day + ['/'] + (month + ['/'] + year);
    assert FormatDate(d) == Join([day, month, year], '/');
    SplitJoin([day, month, year], '/');
    ParseNatToString(d.day);
    ParseNatToString(d.month);
    ParseNatToString(d.year);
  }

  /** The trip-shape fields: typeFlight, daysInDestinationFrom, daysInDestinationTo. */
  datatype TripShape = TripShape(typeFlight: string, daysFrom: string, daysTo: string)

  /** Round trip for a stay of n >= 0 nights; one-way when nightsOfStay is None or negative. */
  function Shape(nightsOfStay: Option<int>): (t: TripShape)
    ensures t.daysFrom == t.daysTo && IsNumeral(t.daysFrom)
    ensures t.daysFrom[0] == '0' ==> t.daysFrom == "0"
    ensures t.typeFlight == "round" <==> nightsOfStay.Some? && nightsOfStay.value >= 0
    ensures t.typeFlight != "round" ==> t.typeFlight == "oneway" && t.daysFrom == "0"
    ensures t.typeFlight == "round" ==> ParseNat(t.daysFrom) == Some(nightsOfStay.value)
  {
    if nightsOfStay.Some? && nightsOfStay.value >= 0 then
      ParseNatToString(nightsOfStay.value);
      TripShape("round", NatToString(nightsOfStay.value), NatToString(nightsOfStay.value))
    else TripShape("oneway", "0", "0")
  }

  /**
   * `--one-way` and `--return` share the destination "nights". argparse fills
   * in the default of the first action registered for it, `--one-way`'s None,
   * so a run with neither flag searches one-way; `--return 0` asks for a
   * round trip of 0 nights.
   */
  lemma DefaultRunIsOneWay()
    ensures Shape(None) == TripShape("oneway", "0", "0")
    ensures Shape(Some(0)) == TripShape("round", "0", "0")
  {
  }

  class Flight {
    var date: string
    var flyFrom: string
    var to: string
    var daysInDestinationFrom: string
    var daysInDestinationTo: string
    var typeFlight: string
    var sort: string
    var bags: int
    var currency: string
    var token: Option<string>        // None until a search finds a flight
    var passenger: Option<Passenger> // None until setPassenger
    var pnr: Option<string>          // None until a booking is confirmed

    /** The departure date the constructor was given. */
    ghost const departure: Date

    ghost predicate Valid()
      reads this
    {
      && date == FormatDate(departure)
      && (typeFlight == "oneway" || typeFlight == "round")
      && daysInDestinationFrom == daysInDestinationTo
      && IsNumeral(daysInDestinationFrom)
      && (typeFlight == "oneway" ==> daysInDestinationFrom == "0")
      && (pnr.Some? ==> token.Some?)
    }

    constructor (date: Date, flyFrom: string, to: string, nightsOfStay: Option<int>,
                 sort: Option<string>, bags: int, currency: string := DefaultCurrency)
      ensures Valid()
      ensures this.date == FormatDate(date) && departure == date
      ensures this.flyFrom == flyFrom && this.to == to
      ensures var shape := Shape(nightsOfStay);
        && typeFlight == shape.typeFlight
        && daysInDestinationFrom == shape.daysFrom
        && daysInDestinationTo == shape.daysTo
      ensures this.sort == if sort.None? then "price" else sort.value
      ensures this.bags == bags && this.currency == currency
      ensures token.None? && passenger.None? && pnr.None?
    {
      this.date := FormatDate(date);
      departure := date;
      this.flyFrom := flyFrom;
      this.to := to;
      daysInDestinationFrom := NatToString(0);
      daysInDestinationTo := NatToString(0);
      typeFlight := "oneway";
      if nightsOfStay.Some? && nightsOfStay.value >= 0 {
        typeFlight := "round";
        daysInDestinationFrom := NatToString(nightsOfStay.value);
        daysInDestinationTo := NatToString(nightsOfStay.value);
      }
      this.sort := "price";
      if sort.Some? {
        this.sort := sort.value;
      }
      this.bags := bags;
      this.currency := currency;
      token, passenger, pnr := None, None, None;
    }

    /** The search parameters this flight sends. */
    function Params(): seq<Param>
      reads this
    {
      SearchParams(date, flyFrom, to, typeFlight, daysInDestinationFrom, daysInDestinationTo, sort)
    }

    /** The search URL, built field by field as the source appends to it. */
    method BuildSearchUrl() returns (url: string)
      ensures url == SearchUrl(Params())
    {
      ghost var ps := Params();
      url := SearchBase;
      url := url + "?dateFrom=" + date;
      assert url == SearchUrl(ps[..1]);
      AppendParam(url, ps, 1, "&dateTo=", date);
      url := url + "&dateTo=" + date;
      AppendParam(url, ps, 2, "&flyFrom=", flyFrom);
      url := url + "&flyFrom=" + flyFrom;
      AppendParam(url, ps, 3, "&to=", to);
      url := url + "&to=" + to;
      AppendParam(url, ps, 4, "&typeFlight=", typeFlight);
      url := url + "&typeFlight=" + typeFlight;
      AppendParam(url, ps, 5, "&daysInDestinationFrom=", daysInDestinationFrom);
      url := url + "&daysInDestinationFrom=" + daysInDestinationFrom;
      AppendParam(url, ps, 6, "&daysInDestinationTo=", daysInDestinationTo);
      url := url + "&daysInDestinationTo=" + daysInDestinationTo;
      AppendParam(url, ps, 7, "&sort=", sort);
      url := url + "&sort=" + sort;
      AppendParam(url, ps, 8, "&limit=", "1");
      url := url + "&limit=1";
      assert ps[..9] == ps;
    }

    /** Sends the search; on a found flight keeps its booking token, otherwise leaves the token as it was. */
    method GetBookingToken(get: string -> SearchResponse) returns (r: Result<bool, Fault>)
      requires Valid()
      modifies this`token
      ensures Valid()
      ensures var outcome := InterpretSearch(get(SearchUrl(Params())));
        && (r == Success(true) <==> outcome.Success? && outcome.value.Found?)
        && (r == Success(false) <==> outcome == Success(NotFound))
        && (r.Failure? <==> outcome.Failure?)
        && (r.Failure? ==> r.error == MalformedResponse)
        && token == (if r == Success(true) then Some(outcome.value.token) else old(token))
    {
      var url := BuildSearchUrl();
      var rsp := get(url);
      if rsp.statusCode == OK {
        if rsp.reply.None? {
          return Failure(MalformedResponse);
        }
        var data := rsp.reply.value;
        if data.results.None? {
          return Failure(MalformedResponse);
        }
        if data.results.value > 0 {
          if data.data.None? || data.data.value == [] || data.data.value[0].bookingToken.None? {
            return Failure(MalformedResponse);
          }
          token := data.data.value[0].bookingToken;
          return Success(true);
        }
      }
      return Success(false);
    }

    method SetPassenger(p: Passenger)
      requires Valid()
      modifies this`passenger
      ensures Valid()
      ensures passenger == Some(p)
    {
      passenger := Some(p);
    }

    /**
     * Sends the booking for the current token and passenger; on a confirmed
     * booking keeps its reservation code, otherwise leaves the code as it was.
     */
    method Book(post: Json -> BookResponse) returns (r: Result<bool, Fault>)
      requires Valid()
      modifies this`pnr
      ensures Valid()
      ensures token.None? ==> r == Failure(MissingAttribute("token"))
      ensures token.Some? && passenger.None? ==> r == Failure(MissingAttribute("passenger"))
      ensures token.Some? && passenger.Some? ==>
        var outcome := InterpretBooking(post(RequestBody(token.value, passenger.value, currency, bags)));
        && (r == Success(true) <==> outcome.Success? && outcome.value.Booked?)
        && (r == Success(false) <==> outcome == Success(NotBooked))
        && (r.Failure? <==> outcome.Failure?)
        && (r.Failure? ==> r.error == MalformedResponse)
      ensures pnr == if r == Success(true) then Some(InterpretBooking(post(RequestBody(token.value, passenger.value, currency, bags))).value.pnr)
                     else old(pnr)
    {
      if token.None? {
        return Failure(MissingAttribute("token"));
      }
      if passenger.None? {
        return Failure(MissingAttribute("passenger"));
      }
      var data := RequestBody(token.value, passenger.value, currency, bags);
      var rsp := post(data);
      if rsp.statusCode == OK {
        if rsp.reply.None? || rsp.reply.value.status.None? {
          return Failure(MalformedResponse);
        }
        if rsp.reply.value.status.value == "confirmed" {
          if rsp.reply.value.pnr.None? {
            return Failure(MalformedResponse);
          }
          pnr := rsp.reply.value.pnr;
          return Success(true);
        }
      }
      return Success(false);
    }
  }

  /**
   * A valid flight whose codes and sort order hold no '&' sends a URL whose
   * query splits back into exactly the nine parameters.
   */
  lemma SearchUrlReadsBack(f: Flight)
    requires f.Valid()
    requires '&' !in f.flyFrom && '&' !in f.to && '&' !in f.sort
    ensures ParseQuery(Query(f.Params())) == Some(f.Params())
  {
    var days := f.daysInDestinationFrom;
    assert forall i :: 0 <= i < |days| ==> days[i] != '&';
    assert '&' !in f.typeFlight;
    SearchQueryRoundTrip(f.date, f.flyFrom, f.to, f.typeFlight, days, f.daysInDestinationTo, f.sort);
  }

  /**
   * The booking can only follow a successful search: a new flight has no token,
   * and once the search finds one and the passenger is set, a confirmed
   * booking yields its reservation code.
   */
  method ConfirmedBooking(departure: Date)
  {
    var flight := new Flight(departure, "PRG", "LON", Some(2), Some("duration"), 1);
    var p := Passenger("Mr", "John", "Doe", "1969-12-03", "john@doe.com", "UK123456789");
    var confirmed := (_: Json) => BookResponse(OK, Some(BookReply(Some("confirmed"), Some("XYZ987"))));
    var early := flight.Book(confirmed);
    assert early == Failure(MissingAttribute("token")) && flight.pnr.None?;
    var found := flight.GetBookingToken((_: string) => SearchResponse(OK, Some(SearchReply(Some(1), Some([Offer(Some("abc123"))])))));
    assert found == Success(true) && flight.token == Some("abc123");
    flight.SetPassenger(p);
    var booked := flight.Book(confirmed);
    assert booked == Success(true) && flight.pnr == Some("XYZ987");
  }

  /** When the search finds nothing, the token stays unset and booking cannot proceed. */
  method NothingFound(departure: Date)
  {
    var flight := new Flight(departure, "PRG", "LON", Some(2), Some("duration"), 1);
    var found := flight.GetBookingToken((_: string) => SearchResponse(OK, Some(SearchReply(Some(0), None))));
    assert found == Success(false) && flight.token.None?;
  }
}
