/**
 * What the program reads back: the decoded bodies of the search and booking
 * responses, and how `getBookingToken` (book_flight.py:99-107) and `book`
 * (book_flight.py:139-147) interpret them. A key the code reads that is
 * missing, an empty `data` list, or a body that is not a JSON object is
 * `MalformedResponse`: the source raises there.
 */
module Responses {
  import opened Wrappers

  /** `requests.codes.ok`. */
  const OK := 200

  /** The exceptions the two round trips can end in. */
  datatype Fault =
    | MissingAttribute(name: string)  // an attribute read before it was ever set
    | MalformedResponse               // a missing key, an empty `data` list, or a body that is not a JSON object

  /** One entry of the search response's "data" list. */
  datatype Offer = Offer(bookingToken: Option<string>)

  /** The decoded search body: "_results" and "data", each None when absent. */
  datatype SearchReply = SearchReply(results: Option<int>, data: Option<seq<Offer>>)

  /** A search response; reply is None when the text is not a JSON object. */
  datatype SearchResponse = SearchResponse(statusCode: int, reply: Option<SearchReply>)

  datatype SearchOutcome = Found(token: string) | NotFound

  /** A token is found exactly when the status is OK, "_results" is positive and the first offer has a token. */
  function InterpretSearch(rsp: SearchResponse): (r: Result<SearchOutcome, Fault>)
    ensures r.Failure? ==> r.error == MalformedResponse
    ensures rsp.statusCode != OK ==> r == Success(NotFound)
    ensures (r.Success? && r.value.Found?) <==>
      && rsp.statusCode == OK && rsp.reply.Some?
      && rsp.reply.value.results.Some? && rsp.reply.value.results.value > 0
      && rsp.reply.value.data.Some? && |rsp.reply.value.data.value| > 0
      && rsp.reply.value.data.value[0].bookingToken.Some?
    ensures r.Success? && r.value.Found? ==> r.value.token == rsp.reply.value.data.value[0].bookingToken.value
    ensures rsp.reply.Some? && rsp.reply.value.results.Some? && rsp.reply.value.results.value <= 0 ==>
      r == Success(NotFound)
    ensures r.Failure? <==>
      && rsp.statusCode == OK
      && (|| rsp.reply.None? || rsp.reply.value.results.None?
          || (rsp.reply.value.results.value > 0 &&
              (|| rsp.reply.value.data.None? || rsp.reply.value.data.value == []
               || rsp.reply.value.data.value[0].bookingToken.None?)))
  {
    if rsp.statusCode != OK then Success(NotFound)
    else match rsp.reply
      case None => Failure(MalformedResponse)
      case Some(body) =>
        match body.results
        case None => Failure(MalformedResponse)
        case Some(n) =>
          if n <= 0 then Success(NotFound)
          else match body.data
            case None => Failure(MalformedResponse)
            case Some(offers) =>
              if offers == [] then Failure(MalformedResponse)
              else match offers[0].bookingToken
                case None => Failure(MalformedResponse)
                case Some(t) => Success(Found(t))
  }

  /** The decoded booking body: "status" and "pnr", each None when absent. */
  datatype BookReply = BookReply(status: Option<string>, pnr: Option<string>)

  /** A booking response; reply is None when the text is not a JSON object. */
  datatype BookResponse = BookResponse(statusCode: int, reply: Option<BookReply>)

  datatype BookingOutcome = Booked(pnr: string) | NotBooked

  /** Booked exactly when the status is OK and "status" is "confirmed"; the code is "pnr" verbatim. */
  function InterpretBooking(rsp: BookResponse): (r: Result<BookingOutcome, Fault>)
    ensures r.Failure? ==> r.error == MalformedResponse
    ensures rsp.statusCode != OK ==> r == Success(NotBooked)
    ensures (r.Success? && r.value.Booked?) <==>
      && rsp.statusCode == OK && rsp.reply.Some?
      && rsp.reply.value.status == Some("confirmed") && rsp.reply.value.pnr.Some?
    ensures r.Success? && r.value.Booked? ==> r.value.pnr == rsp.reply.value.pnr.value
    ensures rsp.reply.Some? && rsp.reply.value.status.Some? && rsp.reply.value.status.value != "confirmed" ==>
      r == Success(NotBooked)
    ensures r.Failure? <==>
      && rsp.statusCode == OK
      && (|| rsp.reply.None? || rsp.reply.value.status.None?
          || (rsp.reply.value.status == Some("confirmed") && rsp.reply.value.pnr.None?))
  {
    if rsp.statusCode != OK then Success(NotBooked)
    else match rsp.reply
      case None => Failure(MalformedResponse)
      case Some(body) =>
        match body.status
        case None => Failure(MalformedResponse)
        case Some(s) =>
          if s != "confirmed" then Success(NotBooked)
          else match body.pnr
            case None => Failure(MalformedResponse)
            case Some(p) => Success(Booked(p))
  }
}
