/**
 * What the program sends: the search URL of `Flight.getBookingToken`
 * (book_flight.py:84-93) and the JSON body of `Flight.book`
 * (book_flight.py:120-130), together with readings of them back into their parts.
 */
module Requests {
  import opened Wrappers
  import opened Text

  /** The flight-search endpoint, before its query string. */
  const SearchBase := "http://api.skypicker.com/flights"

  /** A query parameter: its name and its value, as the raw text put in the URL. */
  type Param = (string, string)

  /** The "name=value" pieces of a query string. */
  function Pieces(params: seq<Param>): (r: seq<string>)
    ensures |r| == |params|
    ensures forall i :: 0 <= i < |params| ==> r[i] == params[i].0 + "=" + params[i].1
  {
    if params == [] then [] else [params[0].0 + "=" + params[0].1] + Pieces(params[1..])
  }

  /** The query string: the pieces joined by '&', nothing escaped. */
  function Query(params: seq<Param>): string
  {
    Join(Pieces(params), '&')
  }

  /** Appending one parameter appends '&' and its piece to the query. */
  lemma QueryGrows(ps: seq<Param>, k: nat)
    requires 0 < k < |ps|
    ensures Query(ps[..k + 1]) == Query(ps[..k]) + "&" + ps[k].0 + "=" + ps[k].1
  {
    var pieces := Pieces(ps[..k]);
    assert Pieces(ps[..k + 1]) == pieces + [ps[k].0 + "=" + ps[k].1];
    JoinSnoc(pieces, '&', ps[k].0 + "=" + ps[k].1);
  }

  /** The search URL after one more parameter appended as "&name=" + value. */
  lemma AppendParam(url: string, ps: seq<Param>, k: nat, link: string, value: string)
    requires 0 < k < |ps| && link == "&" + ps[k].0 + "=" && value == ps[k].1
    requires url == SearchUrl(ps[..k])
    ensures url + link + value == SearchUrl(ps[..k + 1])
  {
    QueryGrows(ps, k);
  }

  /** The search parameters in the order the URL lists them; `dateTo` repeats `dateFrom`. */
  function SearchParams(date: string, flyFrom: string, to: string, typeFlight: string,
                        daysFrom: string, daysTo: string, sort: string): (ps: seq<Param>)
    ensures |ps| == 9
    ensures ps[0] == ("dateFrom", date) && ps[1] == ("dateTo", date)
  {
    [("dateFrom", date), ("dateTo", date), ("flyFrom", flyFrom), ("to", to),
     ("typeFlight", typeFlight), ("daysInDestinationFrom", daysFrom),
     ("daysInDestinationTo", daysTo), ("sort", sort), ("limit", "1")]
  }

  function SearchUrl(params: seq<Param>): string
  {
    SearchBase + "?" + Query(params)
  }

  /** Cuts s at its first sep; None when s has no sep. */
  function CutAt(s: string, sep: char): (r: Option<(string, string)>)
    ensures r.None? <==> sep !in s
    ensures r.Some? ==> sep !in r.value.0 && s == r.value.0 + [sep] + r.value.1
  {
    if s == [] then None
    else if s[0] == sep then Some(([], s[1..]))
    else match CutAt(s[1..], sep)
      case None => None
      case Some(kv) => Some(([s[0]] + kv.0, kv.1))
  }

  lemma {:induction false} CutAtFirst(k: string, sep: char, v: string)
    requires sep !in k
    ensures CutAt(k + [sep] + v, sep) == Some((k, v))
    decreases |k|
  {
    var s := k + [sep] + v;
    if k == [] {
      assert s[1..] == v;
    } else {
      assert s[1..] == k[1..] + [sep] + v;
      CutAtFirst(k[1..], sep, v);
      assert [k[0]] + k[1..] == k;
    }
  }

  function ReadPieces(pieces: seq<string>): Option<seq<Param>>
  {
    if pieces == [] then Some([])
    else match (CutAt(pieces[0], '='), ReadPieces(pieces[1..]))
      case (Some(p), Some(rest)) => Some([p] + rest)
      case _ => None
  }

  /**
   * A split-only reading of a query string: split on '&', then each piece at
   * its first '='. No percent-decoding, no '+' as space, no '#' fragment.
   */
  function ParseQuery(q: string): Option<seq<Param>>
  {
    ReadPieces(Split(q, '&'))
  }

  /** A parameter name and value that the query string carries without ambiguity. */
  predicate PlainParam(p: Param)
  {
    '&' !in p.0 && '=' !in p.0 && '&' !in p.1
  }

  lemma {:induction false} ReadPiecesOfPieces(params: seq<Param>)
    requires forall i :: 0 <= i < |params| ==> '=' !in params[i].0
    ensures ReadPieces(Pieces(params)) == Some(params)
    decreases |params|
  {
    if params != [] {
      ReadPiecesOfPieces(params[1..]);
      CutAtFirst(params[0].0, '=', params[0].1);
      assert Pieces(params)[1..] == Pieces(params[1..]);
      assert params == [params[0]] + params[1..];
    }
  }

  /** A non-empty query whose names and values hold no '&' (and names no '=') reads back as built. */
  lemma QueryRoundTrip(params: seq<Param>)
    requires |params| > 0
    requires forall i :: 0 <= i < |params| ==> PlainParam(params[i])
    ensures ParseQuery(Query(params)) == Some(params)
  {
    var pieces := Pieces(params);
    forall k | 0 <= k < |pieces| ensures '&' !in pieces[k] {
      assert pieces[k] == params[k].0 + "=" + params[k].1;
    }
    SplitJoin(pieces, '&');
    ReadPiecesOfPieces(params);
  }

  /** The split-only reading gives back every search parameter unless a value holds '&'. */
  lemma SearchQueryRoundTrip(date: string, flyFrom: string, to: string, typeFlight: string,
                             daysFrom: string, daysTo: string, sort: string)
    requires '&' !in date && '&' !in flyFrom && '&' !in to && '&' !in typeFlight
    requires '&' !in daysFrom && '&' !in daysTo && '&' !in sort
    ensures var ps := SearchParams(date, flyFrom, to, typeFlight, daysFrom, daysTo, sort);
      ParseQuery(Query(ps)) == Some(ps)
  {
    var ps := SearchParams(date, flyFrom, to, typeFlight, daysFrom, daysTo, sort);
    assert forall i :: 0 <= i < |ps| ==> PlainParam(ps[i]);
    QueryRoundTrip(ps);
  }

  /** Values go in raw: a value "&=B" gives the same query as an empty value followed by a parameter named "". */
  lemma RawValuesAreAmbiguous()
    ensures Query([("flyFrom", "&=B"), ("to", "LON")]) == Query([("flyFrom", ""), ("", "B"), ("to", "LON")])
  {
  }

  /** The fixed passenger details (book_flight.py:150-159), all strings. */
  datatype Passenger = Passenger(title: string, firstName: string, lastName: string,
                                 birthday: string, email: string, documentID: string)

  /** The JSON values the booking body is made of. */
  datatype Json = JString(str: string) | JInt(num: int) | JObject(members: seq<(string, Json)>)

  /** The value under key in a JSON object's members (the first, if repeated). */
  function Get(members: seq<(string, Json)>, key: string): Option<Json>
  {
    if members == [] then None
    else if members[0].0 == key then Some(members[0].1)
    else Get(members[1..], key)
  }

  /** Keys that appear once each. */
  predicate DistinctKeys(members: seq<(string, Json)>)
  {
    forall j, k :: 0 <= j < k < |members| ==> members[j].0 != members[k].0
  }

  lemma {:induction false} GetMember(members: seq<(string, Json)>, i: nat)
    requires i < |members| && DistinctKeys(members)
    ensures Get(members, members[i].0) == Some(members[i].1)
    decreases i
  {
    if i > 0 {
      GetMember(members[1..], i - 1);
    }
  }

  /** The passenger object: its six fields, each as a JSON string. */
  function PassengerJson(p: Passenger): (j: Json)
    ensures ReadPassenger(j) == Some(p)
  {
    var m := [("title", JString(p.title)), ("firstName", JString(p.firstName)),
             ("lastName", JString(p.lastName)), ("birthday", JString(p.birthday)),
             ("email", JString(p.email)), ("documentID", JString(p.documentID))];
    assert DistinctKeys(m);
    GetMember(m, 0); GetMember(m, 1); GetMember(m, 2); GetMember(m, 3); GetMember(m, 4); GetMember(m, 5);
    JObject(m)
  }

  /** The booking request: token, passenger, currency and bags, each carried unchanged. */
  function RequestBody(token: string, p: Passenger, currency: string, bags: int): (body: Json)
    ensures body.JObject?
    ensures Get(body.members, "booking_token") == Some(JString(token))
    ensures Get(body.members, "currency") == Some(JString(currency))
    ensures Get(body.members, "bags") == Some(JInt(bags))
    ensures Get(body.members, "passengers") == Some(PassengerJson(p))
  {
    var members := [("booking_token", JString(token)), ("passengers", PassengerJson(p)),
                    ("currency", JString(currency)), ("bags", JInt(bags))];
    assert DistinctKeys(members);
    GetMember(members, 0); GetMember(members, 1); GetMember(members, 2); GetMember(members, 3);
    JObject(members)
  }

  function GetString(members: seq<(string, Json)>, key: string): Option<string>
  {
    match Get(members, key)
    case Some(JString(s)) => Some(s)
    case _ => None
  }

  /** How the booking server reads the passenger object. */
  function ReadPassenger(j: Json): Option<Passenger>
  {
    if !j.JObject? then None
    else
      var m := j.members;
      match (GetString(m, "title"), GetString(m, "firstName"), GetString(m, "lastName"),
             GetString(m, "birthday"), GetString(m, "email"), GetString(m, "documentID"))
      case (Some(t), Some(f), Some(l), Some(b), Some(e), Some(d)) => Some(Passenger(t, f, l, b, e, d))
      case _ => None
  }

  /** What the booking server reads from a request body: token, passenger, currency, bags. */
  function ReadRequest(body: Json): Option<(string, Passenger, string, int)>
  {
    if !body.JObject? then None
    else
      var m := body.members;
      match (GetString(m, "booking_token"), Get(m, "passengers"), GetString(m, "currency"), Get(m, "bags"))
      case (Some(t), Some(pj), Some(c), Some(JInt(b))) =>
        (match ReadPassenger(pj)
         case Some(p) => Some((t, p, c, b))
         case None => None)
      case _ => None
  }

  /** Reading the booking body gives back exactly the token, passenger, currency and bags put in. */
  lemma RequestBodyRoundTrip(token: string, p: Passenger, currency: string, bags: int)
    ensures ReadRequest(RequestBody(token, p, currency, bags)) == Some((token, p, currency, bags))
  {
  }
}
